/**
 FileQueue's methods and the worker's drain loop, each run without interference: what one
 call does to the four directories (internal/queue/queue.go, internal/queue/worker.go).
 */
module FileQueue {
  import opened Strings
  import opened Job
  import opened Filename
  import opened Listing

  /** A directory entry's content: a job, or bytes that do not unmarshal. */
  datatype Stored = Parsed(job: Job) | Malformed

  type Dir = map<string, Stored>

  /** The four status directories. */
  datatype Dirs = Dirs(pending: Dir, running: Dir, done: Dir, failed: Dir) {
    function At(d: Status): Dir {
      match d
      case Pending => pending
      case Running => running
      case Done => done
      case Failed => failed
    }

    function With(d: Status, dir: Dir): Dirs {
      match d
      case Pending => this.(pending := dir)
      case Running => this.(running := dir)
      case Done => this.(done := dir)
      case Failed => this.(failed := dir)
    }
  }

  const NO_DIRS := Dirs(map[], map[], map[], map[])

  predicate IsJobFile(name: string) {
    HasSuffix(name, EXT)
  }

  function JobFiles(d: Dir): set<string> {
    set n | n in d && IsJobFile(n)
  }

  /** moveJob: the new copy is written before the old one is removed. */
  function Moved(dirs: Dirs, from: Status, to: Status, name: string, job: Job): Dirs {
    var d1 := dirs.With(to, dirs.At(to)[name := Parsed(job)]);
    d1.With(from, d1.At(from) - {name})
  }

  function Name(job: Job): string {
    JobFilename(job.createdAt, job.id)
  }

  predicate WellNamed(d: Dir) {
    forall n | n in d && IsJobFile(n) && d[n].Parsed? :: n == Name(d[n].job)
  }

  predicate AllFit(status: Status, d: Dir) {
    forall n | n in d && IsJobFile(n) && d[n].Parsed? :: Fits(status, d[n].job)
  }

  /** Every readable job file carries its job's name and fits its directory; no pending job is finished as well. */
  predicate Consistent(dirs: Dirs) {
    && WellNamed(dirs.pending) && WellNamed(dirs.running) && WellNamed(dirs.done) && WellNamed(dirs.failed)
    && AllFit(Pending, dirs.pending) && AllFit(Running, dirs.running)
    && AllFit(Done, dirs.done) && AllFit(Failed, dirs.failed)
    && dirs.pending.Keys !! dirs.done.Keys && dirs.pending.Keys !! dirs.failed.Keys
  }

  // ---------------------------------------------------------------- specification of Dequeue

  datatype Dequeued = Empty | Claim(job: Job) | ReadFails(name: string)

  /** The job files no other worker holds a lock on. */
  function Candidates(dirs: Dirs, busy: set<string>): set<string> {
    JobFiles(dirs.pending) - busy
  }

  ghost function DequeueResult(dirs: Dirs, busy: set<string>, now: int): Dequeued {
    var c := Candidates(dirs, busy);
    if c == {} then Empty
    else
      match dirs.pending[Least(c)]
      case Malformed => ReadFails(Least(c))
      case Parsed(job) => Claim(Started(job, now))
  }

  ghost function DequeueDirs(dirs: Dirs, busy: set<string>, now: int): Dirs {
    match DequeueResult(dirs, busy, now)
    case Claim(job) => Moved(dirs, Pending, Running, Least(Candidates(dirs, busy)), job)
    case _ => dirs
  }

  predicate Free(dirs: Dirs, busy: set<string>, n: string) {
    n in dirs.pending && HasSuffix(n, ".json") && n !in busy
  }

  lemma FreeAreCandidates(dirs: Dirs, busy: set<string>, n: string)
    ensures n in Candidates(dirs, busy) <==> Free(dirs, busy, n)
  {
  }

  lemma DequeuedFile(dirs: Dirs, busy: set<string>, now: int, n: string)
    requires IsLeast(n, Candidates(dirs, busy)) && n in dirs.pending
    ensures
      match dirs.pending[n]
      case Malformed => DequeueResult(dirs, busy, now) == ReadFails(n) && DequeueDirs(dirs, busy, now) == dirs
      case Parsed(job) =>
        var started := job.(startedAt := Some(now));
        && DequeueResult(dirs, busy, now) == Claim(started)
        && DequeueDirs(dirs, busy, now) ==
           Dirs(dirs.pending - {n}, dirs.running[n := Parsed(started)], dirs.done, dirs.failed)
  {
    LeastUnique(n, Least(Candidates(dirs, busy)), Candidates(dirs, busy));
  }

  /**
   Dequeue finds nothing if and only if every job file is locked. Otherwise the first job file
   that is not decides: it is an error if malformed, and is moved with its start time if not.
   */
  lemma DequeueExactly(dirs: Dirs, busy: set<string>, now: int, n: string)
    ensures (forall m :: !Free(dirs, busy, m)) ==>
              DequeueResult(dirs, busy, now) == Empty && DequeueDirs(dirs, busy, now) == dirs
    ensures Free(dirs, busy, n) && (forall m | Free(dirs, busy, m) :: Before(n, m)) ==>
              match dirs.pending[n]
              case Malformed => DequeueResult(dirs, busy, now) == ReadFails(n) && DequeueDirs(dirs, busy, now) == dirs
              case Parsed(job) =>
                var started := job.(startedAt := Some(now));
                && DequeueResult(dirs, busy, now) == Claim(started)
                && DequeueDirs(dirs, busy, now) ==
                   Dirs(dirs.pending - {n}, dirs.running[n := Parsed(started)], dirs.done, dirs.failed)
  {
    forall m ensures m in Candidates(dirs, busy) <==> Free(dirs, busy, m) {
      FreeAreCandidates(dirs, busy, m);
    }
    if Free(dirs, busy, n) && forall m | Free(dirs, busy, m) :: Before(n, m) {
      assert IsLeast(n, Candidates(dirs, busy));
      DequeuedFile(dirs, busy, now, n);
    } else if forall m :: !Free(dirs, busy, m) {
      assert Candidates(dirs, busy) == {};
    }
  }

  // ---------------------------------------------------------------- a job in a worker's hands

  predicate OnlyIn(dirs: Dirs, d: Status, name: string) {
    && (name in dirs.pending <==> d == Pending) && (name in dirs.running <==> d == Running)
    && (name in dirs.done <==> d == Done) && (name in dirs.failed <==> d == Failed)
  }

  /** What a claim establishes: the job's only file is the one in running. */
  predicate HeldBy(dirs: Dirs, job: Job) {
    && Consistent(dirs) && OnlyIn(dirs, Running, Name(job))
    && dirs.running[Name(job)] == Parsed(job) && Fits(Running, job)
  }

  lemma ClaimHandsOver(dirs: Dirs, n: string, job: Job, now: int)
    requires Consistent(dirs) && n in JobFiles(dirs.pending) && dirs.pending[n] == Parsed(job)
    ensures HeldBy(Moved(dirs, Pending, Running, n, Started(job, now)), Started(job, now))
  {
    assert n == Name(job) == Name(Started(job, now));
  }

  lemma DequeueHandsOver(dirs: Dirs, busy: set<string>, now: int)
    requires Consistent(dirs)
    ensures var r := DequeueResult(dirs, busy, now);
            Consistent(DequeueDirs(dirs, busy, now)) && (r.Claim? ==> HeldBy(DequeueDirs(dirs, busy, now), r.job))
  {
    var c := Candidates(dirs, busy);
    if c != {} && dirs.pending[Least(c)].Parsed? {
      ClaimHandsOver(dirs, Least(c), dirs.pending[Least(c)].job, now);
    }
  }

  /** A status change of a held job keeps the queue consistent. */
  lemma EndsConsistently(dirs: Dirs, to: Status, job: Job, ended: Job)
    requires HeldBy(dirs, job) && (to == Done || to == Failed) && SameCore(ended, job) && Fits(to, ended)
    ensures var after := Moved(dirs, Running, to, Name(job), ended);
            Consistent(after) && OnlyIn(after, to, Name(job)) && after.At(to)[Name(job)] == Parsed(ended)
  {
    assert Name(ended) == Name(job);
  }

  // ---------------------------------------------------------------- the queue

  datatype EnqueueError = InvalidFlowName | FlowNotFound | WriteFails

  datatype Enqueued = Accepted(job: Job) | Rejected(error: EnqueueError)

  /** The entries GetJob and DeleteJob take for a given job id. */
  function Carriers(d: Dir, id: string): set<string> {
    set n | n in d && FileJobId(n) == Some(id)
  }

  datatype Place = Place(status: Status, file: string)

  /** p is the first entry carrying the id, in status order. */
  predicate FirstCarrier(dirs: Dirs, id: string, p: Place) {
    p.file in Carriers(dirs.At(p.status), id) &&
    forall d: Status | Rank(d) < Rank(p.status) :: Carriers(dirs.At(d), id) == {}
  }

  /** GetJob and DeleteJob look through pending, running, done and failed, in this order. */
  lemma ScanOrder(dirs: Dirs, id: string, p: Place)
    requires FirstCarrier(dirs, id, p)
    ensures p.status == if Carriers(dirs.pending, id) != {} then Pending
                        else if Carriers(dirs.running, id) != {} then Running
                        else if Carriers(dirs.done, id) != {} then Done else Failed
    ensures p.file in dirs.At(p.status) && FileJobId(p.file) == Some(id)
  {
    assert Carriers(dirs.At(Pending), id) == Carriers(dirs.pending, id);
    assert Carriers(dirs.At(Running), id) == Carriers(dirs.running, id);
    assert Carriers(dirs.At(Done), id) == Carriers(dirs.done, id);
  }

  predicate NoCarrier(dirs: Dirs, id: string) {
    forall d: Status :: Carriers(dirs.At(d), id) == {}
  }

  /**
   In a consistent queue an entry of a readable job is the one named after the job, and carries
   exactly that job's id if the job was created from 1970 on; otherwise it does not carry it.
   */
  lemma CarriersAreTheJob(dirs: Dirs, d: Status, n: string, id: string)
    requires Consistent(dirs) && n in JobFiles(dirs.At(d)) && dirs.At(d)[n].Parsed?
    ensures n == Name(dirs.At(d)[n].job)
    ensures var job := dirs.At(d)[n].job;
            if job.createdAt >= 0 then n in Carriers(dirs.At(d), id) <==> job.id == id
            else n !in Carriers(dirs.At(d), job.id)
  {
    IdRoundTrip(dirs.At(d)[n].job.createdAt, dirs.At(d)[n].job.id);
  }

  lemma CarriersAfterEnqueue(dirs: Dirs, job: Job, d: Status)
    requires Carriers(dirs.At(d), job.id) == {}
    ensures var after := dirs.With(Pending, dirs.pending[Name(job) := Parsed(job)]);
            Carriers(after.At(d), job.id) == if d == Pending && job.createdAt >= 0 then {Name(job)} else {}
  {
    IdRoundTrip(job.createdAt, job.id);
    var after := dirs.With(Pending, dirs.pending[Name(job) := Parsed(job)]);
    forall n ensures n in Carriers(after.At(d), job.id) <==> d == Pending && job.createdAt >= 0 && n == Name(job) {
      assert n in dirs.At(d) ==> n !in Carriers(dirs.At(d), job.id);
    }
  }

  /**
   Looking up a fresh job's id finds its pending file and no other, and deleting that restores
   the directories, if and only if the job was created from 1970 on; otherwise nothing is found.
   */
  lemma DeleteUndoesEnqueue(dirs: Dirs, job: Job, p: Place)
    requires NoCarrier(dirs, job.id)
    ensures var after := dirs.With(Pending, dirs.pending[Name(job) := Parsed(job)]);
            && (FirstCarrier(after, job.id, p) <==> job.createdAt >= 0 && p == Place(Pending, Name(job)))
            && (FirstCarrier(after, job.id, p) ==> after.With(p.status, after.At(p.status) - {p.file}) == dirs)
            && (NoCarrier(after, job.id) <==> job.createdAt < 0)
  {
    var after := dirs.With(Pending, dirs.pending[Name(job) := Parsed(job)]);
    forall d: Status
      ensures Carriers(after.At(d), job.id) == if d == Pending && job.createdAt >= 0 then {Name(job)} else {}
    {
      CarriersAfterEnqueue(dirs, job, d);
    }
    if job.createdAt >= 0 {
      IdRoundTrip(job.createdAt, job.id);
      assert Name(job) in Carriers(after.At(Pending), job.id);
      assert Name(job) in dirs.pending ==> Name(job) in Carriers(dirs.At(Pending), job.id);
      assert dirs.pending[Name(job) := Parsed(job)] - {Name(job)} == dirs.pending;
    } else {
      assert p.file !in Carriers(after.At(p.status), job.id);
    }
  }

  datatype GetResult = GetFound(job: Job, status: Status) | GetUnreadable(status: Status) | GetNotFound

  /** What cleanupStatus removes from a directory. */
  predicate Expired(s: Stored, cutoff: int) {
    s.Parsed? && s.job.endedAt.Some? && s.job.endedAt.value < cutoff
  }

  predicate Removable(d: Dir, n: string, cutoff: int)
    requires n in d
  {
    IsJobFile(n) && Expired(d[n], cutoff)
  }

  function ExpiredFiles(d: Dir, cutoff: int): set<string> {
    set n | n in d && Removable(d, n, cutoff)
  }

  function IdsOf(d: Dir, files: set<string>): set<string>
    requires forall n | n in files :: n in d && d[n].Parsed?
  {
    set n | n in files :: d[n].job.id
  }

  function ExpiredIds(d: Dir, cutoff: int): set<string> {
    IdsOf(d, ExpiredFiles(d, cutoff))
  }

  lemma RemoveOneMore(d: Dir, logs: set<string>, gone: set<string>, n: string)
    requires n in d && d[n].Parsed? && forall m | m in gone :: m in d && d[m].Parsed?
    ensures d - gone - {n} == d - (gone + {n})
    ensures logs - IdsOf(d, gone) - {d[n].job.id} == logs - IdsOf(d, gone + {n})
  {
    assert IdsOf(d, gone + {n}) == IdsOf(d, gone) + {d[n].job.id};
  }

  /** What one directory's cleanup is to remove: nothing when its retention is not positive. */
  function Due(d: Dir, retention: int, now: int): set<string> {
    if retention > 0 then ExpiredFiles(d, now - retention) else {}
  }

  function DueIds(d: Dir, retention: int, now: int): set<string> {
    if retention > 0 then ExpiredIds(d, now - retention) else {}
  }

  /**
   Of one directory a cleanup keeps every entry but the job files that can be read and whose job
   ended before the retention period, and of the logs all but theirs.
   */
  lemma DueExactly(d: Dir, logs: set<string>, retention: int, now: int)
    ensures forall n ::
              n in d - Due(d, retention, now) <==>
              n in d && (retention <= 0 || !HasSuffix(n, ".json") || d[n].Malformed? || d[n].job.endedAt.None? ||
                         d[n].job.endedAt.value >= now - retention)
    ensures forall id ::
              id in logs - DueIds(d, retention, now) <==>
              id in logs && forall n | n in d && n !in d - Due(d, retention, now) :: d[n].Parsed? ==> d[n].job.id != id
    ensures |d - Due(d, retention, now)| == |d| - |Due(d, retention, now)|
  {
    var due := Due(d, retention, now);
    assert (d - due).Keys == d.Keys - due;
    assert |(d - due).Keys| == |d - due| && |d.Keys| == |d|;
  }

  function InsertByTime(jobs: seq<Job>, job: Job): (r: seq<Job>)
    ensures multiset(r) == multiset(jobs) + multiset{job}
  {
    if jobs == [] || job.createdAt < jobs[0].createdAt then [job] + jobs
    else
      assert jobs == [jobs[0]] + jobs[1..];
      [jobs[0]] + InsertByTime(jobs[1..], job)
  }

  function OneJob(s: Stored): multiset<Job> {
    if s.Parsed? then multiset{s.job} else multiset{}
  }

  /** The readable jobs in the given files of a directory. */
  ghost function JobsOf(d: Dir, files: set<string>): multiset<Job>
    requires files <= d.Keys
  {
    if files == {} then multiset{}
    else
      var n := Least(files);
      JobsOf(d, files - {n}) + OneJob(d[n])
  }

  lemma OneHolderMore(d: Dir, others: set<string>, l: string, job: Job)
    requires others <= d.Keys && l in d && l !in others
    ensures |set n | n in others + {l} && d[n] == Parsed(job)| ==
            |set n | n in others && d[n] == Parsed(job)| + OneJob(d[l])[job]
  {
    assert (set n | n in others + {l} && d[n] == Parsed(job)) ==
           (set n | n in others && d[n] == Parsed(job)) + if d[l] == Parsed(job) then {l} else {};
  }

  /** Each job is counted once for every file that holds it. */
  lemma {:induction false} JobsOfCount(d: Dir, files: set<string>, job: Job)
    requires files <= d.Keys
    ensures JobsOf(d, files)[job] == |set n | n in files && d[n] == Parsed(job)|
    decreases |files|
  {
    if files != {} {
      var l := Least(files);
      JobsOfCount(d, files - {l}, job);
      OneHolderMore(d, files - {l}, l, job);
      assert files - {l} + {l} == files;
    }
  }

  lemma {:induction false} JobsOfAdd(d: Dir, files: set<string>, n: string)
    requires files <= d.Keys && n in d && n !in files
    ensures JobsOf(d, files + {n}) == JobsOf(d, files) + OneJob(d[n])
  {
    var all := files + {n};
    var l := Least(all);
    if l == n {
      assert all - {n} == files;
    } else {
      assert files != {};
      LeastUnique(l, Least(files), files);
      assert all - {l} == (files - {l}) + {n};
      JobsOfAdd(d, files - {l}, n);
    }
  }

  function FirstNames(names: seq<string>, n: nat): set<string>
    requires n <= |names|
  {
    set i | 0 <= i < n :: names[i]
  }

  lemma AllFirst(names: seq<string>, s: set<string>)
    requires forall n :: n in names <==> n in s
    ensures FirstNames(names, |names|) == s
  {
    forall n | n in s ensures n in FirstNames(names, |names|) {
      assert n in names;
    }
    forall n | n in FirstNames(names, |names|) ensures n in s {
      assert n in names;
    }
  }

  lemma NextName(names: seq<string>, i: nat, s: set<string>)
    requires i < |names| && Distinct(names) && forall n :: n in names <==> n in s
    ensures names[i] in s && names[i] !in FirstNames(names, i)
    ensures FirstNames(names, i + 1) == FirstNames(names, i) + {names[i]}
  {
    assert names[i] in names;
  }

  predicate ByTime(jobs: seq<Job>) {
    forall i, j | 0 <= i < j < |jobs| :: jobs[i].createdAt <= jobs[j].createdAt
  }

  lemma {:induction false} InsertKeepsOrder(jobs: seq<Job>, job: Job)
    requires ByTime(jobs)
    ensures ByTime(InsertByTime(jobs, job))
  {
    if jobs != [] && job.createdAt >= jobs[0].createdAt {
      InsertKeepsOrder(jobs[1..], job);
      var rest := InsertByTime(jobs[1..], job);
      forall j | j in rest ensures jobs[0].createdAt <= j.createdAt {
        assert j in multiset(rest);
        assert j in multiset(jobs[1..]) + multiset{job};
        assert j == job || j in jobs[1..];
      }
    }
  }

  /** One entry of ListJobs; a malformed one is skipped. */
  method InsertStored(jobs: seq<Job>, dir: Dir, ghost seen: set<string>, name: string) returns (result: seq<Job>)
    requires seen <= dir.Keys && name in dir && name !in seen
    requires ByTime(jobs) && multiset(jobs) == JobsOf(dir, seen)
    ensures ByTime(result) && multiset(result) == JobsOf(dir, seen + {name})
  {
    JobsOfAdd(dir, seen, name);
    match dir[name] {
      case Malformed => return jobs;
      case Parsed(job) =>
        InsertKeepsOrder(jobs, job);
        return InsertByTime(jobs, job);
    }
  }

  method FindCarrier(dir: Dir, id: string) returns (r: Option<string>)
    ensures r.None? <==> Carriers(dir, id) == {}
    ensures r.Some? ==> r.value in Carriers(dir, id)
  {
    var names := ReadDir(dir.Keys);
    var i := 0;
    while i < |names|
      invariant i <= |names|
      invariant forall j | 0 <= j < i :: FileJobId(names[j]) != Some(id)
    {
      if FileJobId(names[i]) == Some(id) {
        assert names[i] in names && names[i] in Carriers(dir, id);
        return Some(names[i]);
      }
      i := i + 1;
    }
    forall n | n in dir ensures FileJobId(n) != Some(id) {
      assert n in names;
    }
    return None;
  }

  lemma EnqueueConsistent(dirs: Dirs, job: Job)
    requires Consistent(dirs) && Fits(Pending, job) && forall d :: Name(job) !in dirs.At(d)
    ensures Consistent(dirs.With(Pending, dirs.pending[Name(job) := Parsed(job)]))
  {
    assert Name(job) !in dirs.At(Done) && Name(job) !in dirs.At(Failed);
  }

  lemma WithAt(dirs: Dirs, d: Status, x: Dir, e: Status)
    ensures dirs.With(d, x).At(e) == if e == d then x else dirs.At(e)
  {
  }

  lemma WithWith(dirs: Dirs, d: Status, x: Dir, y: Dir)
    ensures dirs.With(d, x).With(d, y) == dirs.With(d, y) && dirs.With(d, x).At(d) == x
  {
  }

  class FileQueue {
    var dirs: Dirs
    var logs: set<string>
    const doneRetention: int
    const failedRetention: int

    constructor (doneRetention: int, failedRetention: int)
      ensures dirs == NO_DIRS && logs == {}
      ensures this.doneRetention == doneRetention && this.failedRetention == failedRetention
      ensures Consistent(dirs)
    {
      dirs := NO_DIRS;
      logs := {};
      this.doneRetention, this.failedRetention := doneRetention, failedRetention;
    }

    /**
     flows is the registry's content, id the fresh random identifier, now the clock; written
     tells whether the temporary file can be written and renamed.
     */
    method Enqueue(flows: set<string>, flowName: string, inputs: map<string, string>, id: string, now: int,
                   written: bool)
        returns (r: Enqueued)
      requires Consistent(dirs)
      requires forall d :: JobFilename(now, id) !in dirs.At(d)
      modifies this`dirs
      ensures Consistent(dirs)
      ensures r == if !ValidName(TrimSpace(flowName)) then Rejected(InvalidFlowName)
                   else if TrimSpace(flowName) !in flows then Rejected(FlowNotFound)
                   else if !written then Rejected(WriteFails)
                   else Accepted(Job(id, TrimSpace(flowName), inputs, now, None, None, "", None))
      ensures r.Rejected? ==> dirs == old(dirs)
      ensures r.Accepted? ==>
                dirs == Dirs(old(dirs.pending)[JobFilename(now, id) := Parsed(r.job)],
                             old(dirs.running), old(dirs.done), old(dirs.failed))
    {
      var name := TrimSpace(flowName);
      if !ValidName(name) {
        return Rejected(InvalidFlowName);
      }
      if name !in flows {
        return Rejected(FlowNotFound);
      }
      if !written {
        return Rejected(WriteFails);
      }
      var job := Job(id, name, inputs, now, None, None, "", None);
      EnqueueConsistent(dirs, job);
      dirs := dirs.With(Pending, dirs.pending[Name(job) := Parsed(job)]);
      return Accepted(job);
    }

    method MoveJob(from: Status, to: Status, name: string, job: Job)
      requires from != to
      modifies this`dirs
      ensures dirs == Moved(old(dirs), from, to, name, job)
    {
      dirs := dirs.With(to, dirs.At(to)[name := Parsed(job)]);
      dirs := dirs.With(from, dirs.At(from) - {name});
    }

    /** `busy` are the pending files on which another worker holds the lock. */
    method TryClaimJob(name: string, busy: set<string>, now: int) returns (r: Dequeued)
      modifies this`dirs
      ensures name !in old(dirs.pending) || name in busy ==> r == Empty
      ensures name in old(dirs.pending) && name !in busy ==>
                r == match old(dirs.pending)[name]
                     case Malformed => ReadFails(name)
                     case Parsed(job) => Claim(job.(startedAt := Some(now)))
      ensures dirs == if r.Claim? then Dirs(old(dirs.pending) - {name}, old(dirs.running)[name := Parsed(r.job)],
                                            old(dirs.done), old(dirs.failed))
                      else old(dirs)
    {
      if name !in dirs.pending || name in busy {
        return Empty;
      }
      match dirs.pending[name] {
        case Malformed => return ReadFails(name);
        case Parsed(job) =>
          var started := Started(job, now);
          MoveJob(Pending, Running, name, started);
          return Claim(started);
      }
    }

    method Dequeue(busy: set<string>, now: int) returns (r: Dequeued)
      modifies this`dirs
      ensures r == DequeueResult(old(dirs), busy, now)
      ensures dirs == DequeueDirs(old(dirs), busy, now)
      ensures Consistent(old(dirs)) ==> Consistent(dirs) && (r.Claim? ==> HeldBy(dirs, r.job))
    {
      if Consistent(dirs) {
        DequeueHandsOver(dirs, busy, now);
      }
      var names := SortedNames(dirs.pending.Keys);
      ghost var c := Candidates(dirs, busy);
      var i := 0;
      while i < |names|
        invariant i <= |names| && dirs == old(dirs)
        invariant forall j | 0 <= j < i :: names[j] !in c
      {
        if IsJobFile(names[i]) {
          r := TryClaimJob(names[i], busy, now);
          if r != Empty {
            forall m | m in c ensures Before(names[i], m) {
              assert m in names;
              var j :| 0 <= j < |names| && names[j] == m;
            }
            assert names[i] in c;
            LeastUnique(names[i], Least(c), c);
            return;
          }
        }
        i := i + 1;
      }
      assert c == {};
      return Empty;
    }

    /** For a job that is held: its only file is now in done, and reads as done. */
    method MarkDone(job: Job, now: int, code: int)
      modifies this`dirs
      ensures dirs == Dirs(old(dirs.pending), old(dirs.running) - {JobFilename(job.createdAt, job.id)},
                           old(dirs.done)[JobFilename(job.createdAt, job.id) :=
                             Parsed(job.(endedAt := Some(now), exitCode := Some(code)))], old(dirs.failed))
      ensures HeldBy(old(dirs), job) ==>
                && Consistent(dirs) && OnlyIn(dirs, Done, Name(job))
                && dirs.done[Name(job)].Parsed? && SameCore(dirs.done[Name(job)].job, job)
                && Infer(dirs.done[Name(job)].job) == Done && dirs.done[Name(job)].job.exitCode == Some(code)
    {
      if HeldBy(dirs, job) {
        EndsConsistently(dirs, Done, job, Succeeded(job, now, code));
      }
      MoveJob(Running, Done, Name(job), Succeeded(job, now, code));
    }

    /** For a job that is held: its only file is now in failed, and reads as failed unless the message is empty. */
    method MarkFailed(job: Job, now: int, code: int, msg: string)
      modifies this`dirs
      ensures dirs == Dirs(old(dirs.pending), old(dirs.running) - {JobFilename(job.createdAt, job.id)}, old(dirs.done),
                           old(dirs.failed)[JobFilename(job.createdAt, job.id) :=
                             Parsed(job.(endedAt := Some(now), exitCode := Some(code), error := msg))])
      ensures HeldBy(old(dirs), job) ==>
                && Consistent(dirs) && OnlyIn(dirs, Failed, Name(job))
                && dirs.failed[Name(job)].Parsed? && SameCore(dirs.failed[Name(job)].job, job)
                && (Infer(dirs.failed[Name(job)].job) == Failed <==> msg != "")
                && dirs.failed[Name(job)].job.exitCode == Some(code)
    {
      if HeldBy(dirs, job) {
        EndsConsistently(dirs, Failed, job, FailedWith(job, now, code, msg));
      }
      MoveJob(Running, Failed, Name(job), FailedWith(job, now, code, msg));
    }

    /** The readable jobs of a directory, each once, oldest first. */
    method ListJobs(status: Status) returns (jobs: seq<Job>)
      ensures ByTime(jobs)
      ensures multiset(jobs) == JobsOf(dirs.At(status), JobFiles(dirs.At(status)))
      ensures forall job :: multiset(jobs)[job] ==
                            |set n | n in dirs.At(status) && HasSuffix(n, ".json") && dirs.At(status)[n] == Parsed(job)|
    {
      var dir := dirs.At(status);
      var names := ReadDir(JobFiles(dir));
      jobs := [];
      AllFirst(names, JobFiles(dir));
      for i := 0 to |names|
        invariant FirstNames(names, i) <= JobFiles(dir)
        invariant ByTime(jobs) && multiset(jobs) == JobsOf(dir, FirstNames(names, i))
      {
        NextName(names, i, JobFiles(dir));
        jobs := InsertStored(jobs, dir, FirstNames(names, i), names[i]);
      }
      forall job ensures multiset(jobs)[job] == |set n | n in dir && HasSuffix(n, ".json") && dir[n] == Parsed(job)| {
        JobsOfCount(dir, JobFiles(dir), job);
        assert (set n | n in JobFiles(dir) && dir[n] == Parsed(job)) ==
               set n | n in dir && HasSuffix(n, ".json") && dir[n] == Parsed(job);
      }
    }

    /** The scan shared by GetJob and DeleteJob. */
    method Locate(id: string) returns (r: Option<Place>)
      ensures r.None? <==> NoCarrier(dirs, id)
      ensures r.Some? ==> FirstCarrier(dirs, id, r.value)
    {
      var k := 0;
      while k < 4
        invariant k <= 4
        invariant forall d: Status | Rank(d) < k :: Carriers(dirs.At(d), id) == {}
      {
        var file := FindCarrier(dirs.At(StatusAt(k)), id);
        if file.Some? {
          return Some(Place(StatusAt(k), file.value));
        }
        k := k + 1;
      }
      return None;
    }

    method GetJob(id: string) returns (r: GetResult)
      ensures r.GetNotFound? <==> NoCarrier(dirs, id)
      ensures !r.GetNotFound? ==>
                exists n :: FirstCarrier(dirs, id, Place(r.status, n)) &&
                            dirs.At(r.status)[n] == if r.GetFound? then Parsed(r.job) else Malformed
    {
      var place := Locate(id);
      if place.None? {
        return GetNotFound;
      }
      var status, file := place.value.status, place.value.file;
      assert FirstCarrier(dirs, id, Place(status, file));
      match dirs.At(status)[file] {
        case Malformed => return GetUnreadable(status);
        case Parsed(job) => return GetFound(job, status);
      }
    }

    method RemoveJobFile(status: Status, name: string, id: string)
      modifies this`dirs, this`logs
      ensures dirs == old(dirs).With(status, old(dirs).At(status) - {name}) && logs == old(logs) - {id}
    {
      dirs := dirs.With(status, dirs.At(status) - {name});
      logs := logs - {id};
    }

    /** Removes the first file that carries the id, and the job's log. */
    method DeleteJob(id: string) returns (ok: bool)
      modifies this`dirs, this`logs
      ensures ok <==> !NoCarrier(old(dirs), id)
      ensures !ok ==> dirs == old(dirs) && logs == old(logs)
      ensures ok ==> logs == old(logs) - {id} &&
                     exists p: Place :: FirstCarrier(old(dirs), id, p) &&
                                        dirs == old(dirs).With(p.status, old(dirs).At(p.status) - {p.file})
    {
      var place := Locate(id);
      if place.None? {
        return false;
      }
      var p := place.value;
      assert FirstCarrier(dirs, id, p);
      RemoveJobFile(p.status, p.file, id);
      return true;
    }

    /** One entry of a directory that is being cleaned. */
    method CleanOne(status: Status, name: string, cutoff: int) returns (expired: bool)
      requires name in dirs.At(status)
      modifies this`dirs, this`logs
      ensures expired <==> Removable(old(dirs).At(status), name, cutoff)
      ensures !expired ==> dirs == old(dirs) && logs == old(logs)
      ensures expired ==>
                && old(dirs).At(status)[name].Parsed?
                && dirs == old(dirs).With(status, old(dirs).At(status) - {name})
                && logs == old(logs) - {old(dirs).At(status)[name].job.id}
    {
      expired := Removable(dirs.At(status), name, cutoff);
      if expired {
        RemoveJobFile(status, name, dirs.At(status)[name].job.id);
      }
    }

    method CleanupStatus(status: Status, cutoff: int) returns (cleaned: nat)
      modifies this`dirs, this`logs
      ensures dirs == old(dirs).With(status, old(dirs).At(status) - ExpiredFiles(old(dirs).At(status), cutoff))
      ensures logs == old(logs) - ExpiredIds(old(dirs).At(status), cutoff)
      ensures cleaned == |ExpiredFiles(old(dirs).At(status), cutoff)|
    {
      ghost var was, wasLogs, dir := dirs, logs, dirs.At(status);
      ghost var due := ExpiredFiles(dir, cutoff);
      var names := ReadDir(dirs.At(status).Keys);
      cleaned := 0;
      var i := 0;
      ghost var gone: set<string>, removed: seq<string> := {}, [];
      while i < |names|
        invariant i <= |names| && gone <= due
        invariant forall j | 0 <= j < i :: names[j] in due ==> names[j] in gone
        invariant forall j | i <= j < |names| :: names[j] !in gone
        invariant dirs == was.With(status, dir - gone) && logs == wasLogs - IdsOf(dir, gone)
        invariant cleaned == |removed| && Distinct(removed) && forall n :: n in removed <==> n in gone
      {
        var name := names[i];
        assert name in names;
        var expired := CleanOne(status, name, cutoff);
        if expired {
          RemoveOneMore(dir, wasLogs, gone, name);
          WithWith(was, status, dir - gone, dir - gone - {name});
          cleaned := cleaned + 1;
          gone, removed := gone + {name}, removed + [name];
        }
        i := i + 1;
      }
      forall n | n in due ensures n in gone {
        assert n in names;
      }
      assert gone == due;
      CountDistinct(removed, gone);
    }

    /** Each directory is cleaned against the clock reading taken when its turn comes. */
    method RunCleanup(now1: int, now2: int) returns (cleaned: nat)
      modifies this`dirs, this`logs
      ensures dirs.pending == old(dirs.pending) && dirs.running == old(dirs.running)
      ensures dirs.done == old(dirs.done) - Due(old(dirs.done), doneRetention, now1)
      ensures dirs.failed == old(dirs.failed) - Due(old(dirs.failed), failedRetention, now2)
      ensures logs == old(logs) - DueIds(old(dirs.done), doneRetention, now1)
                      - DueIds(old(dirs.failed), failedRetention, now2)
      ensures cleaned == |Due(old(dirs.done), doneRetention, now1)| + |Due(old(dirs.failed), failedRetention, now2)|
    {
      cleaned := 0;
      if doneRetention > 0 {
        var n := CleanupStatus(Done, now1 - doneRetention);
        cleaned := cleaned + n;
      }
      if failedRetention > 0 {
        var n := CleanupStatus(Failed, now2 - failedRetention);
        cleaned := cleaned + n;
      }
    }
  }
}

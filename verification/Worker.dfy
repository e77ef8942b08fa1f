/** The worker's drain loop over an undisturbed queue (internal/queue/worker.go). */
module Worker {
  import opened Strings
  import opened Job
  import opened Filename
  import opened FileQueue
  import opened Listing

  /** How loading and running a job's flow ends. */
  datatype Execution = LoadFails(msg: string) | LogFails(msg: string) | RunFails(msg: string) | Succeeds

  function FailureMessage(x: Execution): string {
    match x
    case LoadFails(msg) => msg
    case LogFails(msg) => "creating log file: " + msg
    case RunFails(msg) => msg
    case Succeeds => ""
  }

  datatype Processed = Finished(name: string) | QueueEmpty | DequeueFails(name: string)

  /** The job's only file is in the directory its execution decides, with the core it was enqueued with. */
  predicate Ended(dirs: Dirs, n: string, job: Job, x: Execution) {
    && n !in dirs.pending && n !in dirs.running
    && (if x.Succeeds? then
          && n in dirs.done && n !in dirs.failed && dirs.done[n].Parsed?
          && SameCore(dirs.done[n].job, job) && Fits(Done, dirs.done[n].job)
          && dirs.done[n].job.exitCode == Some(0)
        else
          && n in dirs.failed && n !in dirs.done && dirs.failed[n].Parsed?
          && SameCore(dirs.failed[n].job, job) && Fits(Failed, dirs.failed[n].job)
          && dirs.failed[n].job.exitCode == Some(1)
          && dirs.failed[n].job.error == match x
                                         case LogFails(msg) => "creating log file: " + msg
                                         case _ => x.msg)
  }

  /** One entry of one directory is as it was. */
  predicate SameEntry(was: Dirs, now: Dirs, d: Status, n: string) {
    (n in now.At(d) <==> n in was.At(d)) && (n in was.At(d) ==> now.At(d)[n] == was.At(d)[n])
  }

  /** A file that keeps n waiting: itself or one before it does not unmarshal. */
  ghost predicate Blocked(pending: Dir, n: string) {
    exists m :: m in JobFiles(pending) && pending[m].Malformed? && Before(m, n)
  }

  function FinalJob(started: Job, x: Execution, endedAt: int): Job {
    if x.Succeeds? then Succeeded(started, endedAt, 0) else FailedWith(started, endedAt, 1, FailureMessage(x))
  }

  function FinalStatus(x: Execution): Status {
    if x.Succeeds? then Done else Failed
  }

  /** A claim followed by the status change its execution asks for. */
  function AfterOne(dirs: Dirs, n: string, started: Job, x: Execution, endedAt: int): Dirs {
    Moved(Moved(dirs, Pending, Running, n, started), Running, FinalStatus(x), n, FinalJob(started, x, endedAt))
  }

  lemma AfterOneDirs(dirs: Dirs, n: string, started: Job, x: Execution, endedAt: int)
    ensures
      var after, final := AfterOne(dirs, n, started, x, endedAt), Parsed(FinalJob(started, x, endedAt));
      && after.pending == dirs.pending - {n}
      && after.running == dirs.running - {n}
      && after.done == (if x.Succeeds? then dirs.done[n := final] else dirs.done)
      && after.failed == if x.Succeeds? then dirs.failed else dirs.failed[n := final]
  {
  }

  /**
   What processing one job comes to: its file leaves pending and lies in done with exit code 0,
   or in failed with exit code 1 and what went wrong, with both times; nothing else changes.
   */
  lemma AfterOneExactly(dirs: Dirs, n: string, job: Job, claimedAt: int, x: Execution, endedAt: int)
    ensures
      var after := AfterOne(dirs, n, Started(job, claimedAt), x, endedAt);
      var ended := job.(startedAt := Some(claimedAt), endedAt := Some(endedAt));
      && after.pending == dirs.pending - {n} && after.running == dirs.running - {n}
      && (x.Succeeds? ==>
            && after.done == dirs.done[n := Parsed(ended.(exitCode := Some(0)))] && after.failed == dirs.failed)
      && (!x.Succeeds? ==>
            var error := if x.LogFails? then "creating log file: " + x.msg else x.msg;
            && after.done == dirs.done
            && after.failed == dirs.failed[n := Parsed(ended.(exitCode := Some(1), error := error))])
  {
    AfterOneDirs(dirs, n, Started(job, claimedAt), x, endedAt);
  }

  lemma AfterOneConsistent(dirs: Dirs, n: string, job: Job, t: int, x: Execution, endedAt: int)
    requires Consistent(dirs) && n in JobFiles(dirs.pending) && dirs.pending[n] == Parsed(job)
    ensures Consistent(AfterOne(dirs, n, Started(job, t), x, endedAt))
  {
    AfterOneDirs(dirs, n, Started(job, t), x, endedAt);
    assert n == Name(job) == Name(FinalJob(Started(job, t), x, endedAt));
  }

  lemma AfterOneEnded(dirs: Dirs, n: string, job: Job, t: int, x: Execution, endedAt: int)
    requires Consistent(dirs) && n in JobFiles(dirs.pending) && dirs.pending[n] == Parsed(job)
    ensures Ended(AfterOne(dirs, n, Started(job, t), x, endedAt), n, job, x)
  {
    AfterOneDirs(dirs, n, Started(job, t), x, endedAt);
  }

  lemma AfterOneSame(dirs: Dirs, n: string, started: Job, x: Execution, endedAt: int, d: Status, m: string)
    requires m != n
    ensures SameEntry(dirs, AfterOne(dirs, n, started, x, endedAt), d, m)
  {
    AfterOneDirs(dirs, n, started, x, endedAt);
  }

  ghost predicate Progress(was: Dirs, now: Dirs, finished: set<string>, execute: string -> Execution) {
    && Consistent(now)
    && finished <= JobFiles(was.pending) && JobFiles(now.pending) == JobFiles(was.pending) - finished
    && (forall n | n in finished ::
          was.pending[n].Parsed? && Ended(now, n, was.pending[n].job, execute(was.pending[n].job.id)))
    && (forall n, d: Status | n !in finished :: SameEntry(was, now, d, n))
    && (forall n, m | n in finished && m in JobFiles(was.pending) - finished :: Less(n, m))
  }

  lemma EndedStays(now: Dirs, after: Dirs, m: string, job: Job, x: Execution)
    requires Ended(now, m, job, x)
    requires SameEntry(now, after, Pending, m) && SameEntry(now, after, Running, m)
    requires SameEntry(now, after, Done, m) && SameEntry(now, after, Failed, m)
    ensures Ended(after, m, job, x)
  {
  }

  lemma Advance(was: Dirs, now: Dirs, after: Dirs, finished: set<string>, n: string, execute: string -> Execution)
    requires Progress(was, now, finished, execute) && IsLeast(n, JobFiles(now.pending)) && Consistent(after)
    requires forall m, d: Status | m != n :: SameEntry(now, after, d, m)
    requires n in was.pending && was.pending[n].Parsed?
    requires Ended(after, n, was.pending[n].job, execute(was.pending[n].job.id))
    ensures Progress(was, after, finished + {n}, execute)
  {
    forall m ensures m in JobFiles(after.pending) <==> m in JobFiles(was.pending) - (finished + {n}) {
      assert m in JobFiles(now.pending) <==> m in JobFiles(was.pending) - finished;
      assert m != n ==> SameEntry(now, after, Pending, m);
    }
    forall m | m in finished ensures Ended(after, m, was.pending[m].job, execute(was.pending[m].job.id)) {
      assert forall d: Status :: SameEntry(now, after, d, m);
      EndedStays(now, after, m, was.pending[m].job, execute(was.pending[m].job.id));
    }
    forall m, d: Status | m !in finished + {n} ensures SameEntry(was, after, d, m) {
      assert SameEntry(was, now, d, m) && SameEntry(now, after, d, m);
    }
    forall a, m | a in finished + {n} && m in JobFiles(was.pending) - (finished + {n}) ensures Less(a, m) {
      if a == n {
        assert Before(n, m);
      }
    }
  }

  lemma OneMore(was: Dirs, now: Dirs, finished: set<string>, n: string, t: int, execute: string -> Execution,
                endedAt: int)
    requires Progress(was, now, finished, execute)
    requires IsLeast(n, JobFiles(now.pending)) && now.pending[n].Parsed?
    ensures n in was.pending && was.pending[n] == now.pending[n]
    ensures var job := now.pending[n].job;
            Progress(was, AfterOne(now, n, Started(job, t), execute(job.id), endedAt), finished + {n}, execute)
  {
    assert SameEntry(was, now, Pending, n);
    var job := now.pending[n].job;
    var x := execute(job.id);
    var after := AfterOne(now, n, Started(job, t), x, endedAt);
    AfterOneConsistent(now, n, job, t, x, endedAt);
    AfterOneEnded(now, n, job, t, x, endedAt);
    forall m, d: Status | m != n ensures SameEntry(now, after, d, m) {
      AfterOneSame(now, n, Started(job, t), x, endedAt, d, m);
    }
    Advance(was, now, after, finished, n, execute);
  }

  /** The loop stops at the first file that does not unmarshal. */
  lemma Stuck(was: Dirs, now: Dirs, finished: set<string>, execute: string -> Execution, name: string)
    requires Progress(was, now, finished, execute)
    requires IsLeast(name, JobFiles(now.pending)) && now.pending[name] == Malformed
    ensures forall n | n in JobFiles(was.pending) :: n !in finished <==> Blocked(was.pending, n)
    ensures name in JobFiles(was.pending) && was.pending[name] == Malformed
  {
    assert SameEntry(was, now, Pending, name);
    forall n | n in JobFiles(was.pending) ensures n !in finished <==> Blocked(was.pending, n) {
      if n !in finished {
        assert Before(name, n);
      } else if Blocked(was.pending, n) {
        var m :| m in JobFiles(was.pending) && was.pending[m].Malformed? && Before(m, n);
        LessTrichotomy(n, m);
      }
    }
  }

  class Worker {
    const queue: FileQueue

    constructor (queue: FileQueue)
      ensures this.queue == queue
    {
      this.queue := queue;
    }

    method ProcessNext(execute: string -> Execution, claimedAt: int, endedAt: int) returns (r: Processed)
      requires Consistent(queue.dirs)
      modifies queue`dirs, queue`logs
      ensures Consistent(queue.dirs)
      ensures r.QueueEmpty? <==> JobFiles(old(queue.dirs).pending) == {}
      ensures !r.Finished? ==> queue.dirs == old(queue.dirs)
      ensures r.DequeueFails? ==>
                && IsLeast(r.name, JobFiles(old(queue.dirs).pending)) && old(queue.dirs).pending[r.name] == Malformed
      ensures r.Finished? ==>
                && IsLeast(r.name, JobFiles(old(queue.dirs).pending)) && old(queue.dirs).pending[r.name].Parsed?
                && var job := old(queue.dirs).pending[r.name].job;
                   queue.dirs == AfterOne(old(queue.dirs), r.name, Started(job, claimedAt), execute(job.id), endedAt)
      ensures r.Finished? ==>
                var job := old(queue.dirs).pending[r.name].job;
                var x := execute(job.id);
                queue.logs == old(queue.logs) + if x.LoadFails? || x.LogFails? then {} else {job.id}
      ensures !r.Finished? ==> queue.logs == old(queue.logs)
    {
      ghost var was := queue.dirs;
      assert Candidates(was, {}) == JobFiles(was.pending);
      var d := queue.Dequeue({}, claimedAt);
      match d {
        case Empty => return QueueEmpty;
        case ReadFails(name) => return DequeueFails(name);
        case Claim(job) =>
          ghost var n := Least(JobFiles(was.pending));
          assert n == Name(job) && job == Started(was.pending[n].job, claimedAt);
          AfterOneConsistent(was, n, was.pending[n].job, claimedAt, execute(job.id), endedAt);
          var x := execute(job.id);
          if !x.LoadFails? && !x.LogFails? {
            queue.logs := queue.logs + {job.id};
          }
          if x.Succeeds? {
            queue.MarkDone(job, endedAt, 0);
          } else {
            queue.MarkFailed(job, endedAt, 1, FailureMessage(x));
          }
          return Finished(Name(job));
      }
    }

    /**
     Without interference the loop ends, with every unblocked pending job in done or failed,
     exactly once, as its execution decides, and everything else untouched.
     */
    method DrainQueue(execute: string -> Execution) returns (error: Option<string>)
      requires Consistent(queue.dirs)
      modifies queue`dirs, queue`logs
      ensures Consistent(queue.dirs)
      ensures error.None? <==> forall n | n in JobFiles(old(queue.dirs).pending) :: old(queue.dirs).pending[n].Parsed?
      ensures forall n | n in JobFiles(old(queue.dirs).pending) ::
                n in JobFiles(queue.dirs.pending) <==> Blocked(old(queue.dirs).pending, n)
      ensures forall n | n in JobFiles(old(queue.dirs).pending) && !Blocked(old(queue.dirs).pending, n) ::
                && old(queue.dirs).pending[n].Parsed?
                && var job := old(queue.dirs).pending[n].job; Ended(queue.dirs, n, job, execute(job.id))
      ensures forall n, d: Status | n !in JobFiles(old(queue.dirs).pending) || Blocked(old(queue.dirs).pending, n) ::
                SameEntry(old(queue.dirs), queue.dirs, d, n)
    {
      ghost var was := queue.dirs;
      ghost var finished: set<string> := {};
      while true
        invariant Progress(was, queue.dirs, finished, execute)
        decreases JobFiles(was.pending) - finished
      {
        var claimedAt: int, endedAt: int := *, *;
        ghost var before := queue.dirs;
        var r := ProcessNext(execute, claimedAt, endedAt);
        match r {
          case QueueEmpty =>
            assert finished == JobFiles(was.pending);
            return None;
          case DequeueFails(name) =>
            Stuck(was, before, finished, execute, name);
            return Some(name);
          case Finished(n) =>
            OneMore(was, before, finished, n, claimedAt, execute, endedAt);
            finished := finished + {n};
        }
      }
    }
  }
}

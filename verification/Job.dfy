/** Jobs as internal/queue/queue.go stores them, one JSON file per job in one of four directories. */
module Job {
  datatype Option<+T> = None | Some(value: T)

  /** The four status directories, in the order in which GetJob and DeleteJob scan them. */
  datatype Status = Pending | Running | Done | Failed

  function Rank(d: Status): nat {
    match d
    case Pending => 0
    case Running => 1
    case Done => 2
    case Failed => 3
  }

  function StatusAt(i: nat): (d: Status)
    requires i < 4
    ensures Rank(d) == i
  {
    if i == 0 then Pending else if i == 1 then Running else if i == 2 then Done else Failed
  }

  /** What a job file name is made of. */
  datatype Key = Key(createdAt: int, id: string)

  datatype Job = Job(
    id: string,
    flow: string,
    inputs: map<string, string>,
    createdAt: int,
    startedAt: Option<int>,
    endedAt: Option<int>,
    error: string,
    exitCode: Option<int>)
  {
    function FileKey(): Key {
      Key(createdAt, id)
    }
  }

  /** As Enqueue leaves it: not started, not ended, without error and exit code. */
  predicate IsNew(job: Job) {
    job.startedAt.None? && job.endedAt.None? && job.error == "" && job.exitCode.None?
  }

  function Started(job: Job, now: int): Job {
    job.(startedAt := Some(now))
  }

  function Succeeded(job: Job, now: int, code: int): Job {
    job.(endedAt := Some(now), exitCode := Some(code))
  }

  function FailedWith(job: Job, now: int, code: int, msg: string): Job {
    job.(endedAt := Some(now), exitCode := Some(code), error := msg)
  }

  /** The part of a job that no status change may touch. */
  predicate SameCore(a: Job, b: Job) {
    a.id == b.id && a.flow == b.flow && a.inputs == b.inputs && a.createdAt == b.createdAt
  }

  /** The frontend's reading of a job that carries no status field. */
  function Infer(job: Job): Status {
    if job.startedAt.None? then Pending
    else if job.endedAt.None? then Running
    else if job.error != "" then Failed
    else Done
  }

  /** What a job stored in directory d looks like. */
  predicate Fits(d: Status, job: Job) {
    match d
    case Pending => job.startedAt.None? && job.endedAt.None? && job.error == ""
    case Running => job.startedAt.Some? && job.endedAt.None? && job.error == ""
    case Done => job.startedAt.Some? && job.endedAt.Some? && job.error == ""
    case Failed => job.startedAt.Some? && job.endedAt.Some?
  }
}

/** First in, first out: what the order of file names means for Dequeue and ListJobs (internal/queue/queue.go). */
module QueueOrder {
  import opened Strings
  import opened Job
  import opened Filename
  import opened Listing
  import opened FileQueue

  /** The pending jobs were created between 2001 and 2262 and have ids of one length. */
  predicate Regular(d: Dir, length: nat) {
    forall n | n in JobFiles(d) && d[n].Parsed? ::
      Pow10(18) <= d[n].job.createdAt < 0x8000_0000_0000_0000 && |d[n].job.id| == length
  }

  predicate Earlier(a: Job, b: Job) {
    a.createdAt < b.createdAt || (a.createdAt == b.createdAt && Before(a.id, b.id))
  }

  lemma NameOrder(d: Dir, length: nat, a: string, b: string)
    requires WellNamed(d) && Regular(d, length)
    requires a in JobFiles(d) && b in JobFiles(d) && d[a].Parsed? && d[b].Parsed?
    ensures Before(a, b) ==> Earlier(d[a].job, d[b].job)
  {
    var x, y := d[a].job, d[b].job;
    ClockRange(x.createdAt);
    ClockRange(y.createdAt);
    FilenameOrder(x.createdAt, x.id, y.createdAt, y.id);
  }

  /** An uncontended Dequeue hands out a pending job that is minimal by (CreatedAt, id). */
  lemma DequeueIsFifo(dirs: Dirs, now: int, length: nat, job: Job)
    requires Consistent(dirs) && Regular(dirs.pending, length) && DequeueResult(dirs, {}, now) == Claim(job)
    ensures exists n :: n in JobFiles(dirs.pending) && dirs.pending[n].Parsed? &&
                        job == Started(dirs.pending[n].job, now)
    ensures forall n | n in JobFiles(dirs.pending) && dirs.pending[n].Parsed? :: Earlier(job, dirs.pending[n].job)
  {
    var d := dirs.pending;
    assert Candidates(dirs, {}) == JobFiles(d);
    var least := Least(JobFiles(d));
    assert job == Started(d[least].job, now);
    forall n | n in JobFiles(d) && d[n].Parsed? ensures Earlier(job, d[n].job) {
      assert Before(least, n);
      NameOrder(d, length, least, n);
    }
  }

  lemma {:induction false} JobsOfMember(d: Dir, files: set<string>, job: Job)
    requires files <= d.Keys
    ensures job in JobsOf(d, files) <==> exists n :: n in files && d[n] == Parsed(job)
    decreases |files|
  {
    if files != {} {
      var l := Least(files);
      JobsOfMember(d, files - {l}, job);
      if exists n :: n in files && d[n] == Parsed(job) {
        var n :| n in files && d[n] == Parsed(job);
        assert n == l || n in files - {l};
      }
    }
  }

  /** It was created at the same time as the head of what ListJobs returns for the pending jobs. */
  lemma DequeueAgreesWithList(dirs: Dirs, now: int, length: nat, job: Job, jobs: seq<Job>)
    requires Consistent(dirs) && Regular(dirs.pending, length) && DequeueResult(dirs, {}, now) == Claim(job)
    requires ByTime(jobs) && multiset(jobs) == JobsOf(dirs.pending, JobFiles(dirs.pending))
    ensures jobs != [] && jobs[0].createdAt == job.createdAt
  {
    var d := dirs.pending;
    DequeueIsFifo(dirs, now, length, job);
    var n :| n in JobFiles(d) && d[n].Parsed? && job == Started(d[n].job, now);
    JobsOfMember(d, JobFiles(d), d[n].job);
    assert d[n].job in multiset(jobs);
    var i :| 0 <= i < |jobs| && jobs[i] == d[n].job;
    assert jobs[0] in multiset(jobs);
    JobsOfMember(d, JobFiles(d), jobs[0]);
  }
}

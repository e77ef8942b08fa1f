/** What the queue protocol guarantees in every run, and runs that show where its guarantees end. */
module QueueTheorems {
  import opened Job
  import opened QueueProtocol
  import opened QueueInvariant

  /** No job id is ever returned by Dequeue twice, whatever interleaves and whoever crashes. */
  lemma AtMostOnce(states: seq<State>, steps: seq<Step>, i: nat, id: string)
    requires Run(states, steps) && RemovesSucceed(steps) && i <= |steps|
    ensures states[i].handed[id] <= 1
  {
    Invariant(states, steps, i);
    assert IdInv(states[i], id);
  }

  /** At no time do two processes work on the same job past the checks under the lock. */
  lemma OneProcessPerJob(states: seq<State>, steps: seq<Step>, i: nat, p: nat, q: nat)
    requires Run(states, steps) && RemovesSucceed(steps) && i <= |steps|
    ensures Exclusive(states[i], p, q)
  {
    Invariant(states, steps, i);
    Know(states[i], p, q, Key(0, ""));
  }

  /** The directories in which a job has a finished file. */
  function DirsOf(s: State, k: Key): set<Status> {
    set d: Status | d in {Pending, Running, Done, Failed} && In(s, d, k)
  }

  lemma EnqEnqueued(s: State, p: nat, e: EnqAction, id: string)
    requires CanEnq(s, p, e) && id in s.enqueued
    requires PcOf(s, p).Enqueuing? ==> PcOf(s, p).job.id !in s.enqueued
    ensures id in DoEnq(s, p, e).enqueued && DoEnq(s, p, e).enqueued[id] == s.enqueued[id]
  {
  }

  lemma ClaimEnqueued(s: State, p: nat, c: ClaimAction)
    requires CanClaim(s, p, c)
    ensures DoClaim(s, p, c).enqueued == s.enqueued
  {
    ClaimHistory(s, p, c);
  }

  lemma MarkEnqueued(s: State, p: nat, m: MarkAction)
    requires CanMark(s, p, m)
    ensures DoMark(s, p, m).enqueued == s.enqueued
  {
    MarkHistory(s, p, m);
  }

  lemma ScanEnqueued(s: State, r: nat, a: ScanAction)
    requires CanScan(s, r, a)
    ensures DoScan(s, r, a).enqueued == s.enqueued
  {
  }

  lemma EnqueuedStays(s: State, st: Step, id: string)
    requires Inv(s) && Enabled(s, st) && id in s.enqueued
    ensures id in Apply(s, st).enqueued && Apply(s, st).enqueued[id] == s.enqueued[id]
  {
    match st {
      case Enq(p, e) => assert PcInv(s, p); EnqEnqueued(s, p, e, id);
      case Claim(p, c) => ClaimEnqueued(s, p, c);
      case Mark(p, m) => MarkEnqueued(s, p, m);
      case Crash(_) =>
      case Unlink(_, _) =>
      case Scan(r, a) => ScanEnqueued(s, r, a);
    }
  }

  lemma {:induction false} EnqueuedForever(states: seq<State>, steps: seq<Step>, i: nat, j: nat, id: string)
    requires Run(states, steps) && RemovesSucceed(steps) && i <= j <= |steps|
    requires id in states[i].enqueued
    ensures id in states[j].enqueued && states[j].enqueued[id] == states[i].enqueued[id]
  {
    if i < j {
      EnqueuedForever(states, steps, i, j - 1, id);
      Invariant(states, steps, j - 1);
      EnqueuedStays(states[j - 1], steps[j - 1], id);
    }
  }

  lemma SevenSets(s: State, k: Key)
    requires Placed(s, k)
    ensures DirsOf(s, k) in
              {{Pending}, {Pending, Running}, {Running}, {Running, Done}, {Running, Failed}, {Done}, {Failed}}
  {
    var ds := DirsOf(s, k);
    forall d: Status ensures d in ds <==> In(s, d, k) {
      assert d in {Pending, Running, Done, Failed} by {
        match d { case Pending => case Running => case Done => case Failed => }
      }
    }
    if In(s, Pending, k) {
      assert ds == if In(s, Running, k) then {Pending, Running} else {Pending};
    } else if In(s, Running, k) {
      assert ds == if In(s, Done, k) then {Running, Done}
                   else if In(s, Failed, k) then {Running, Failed} else {Running};
    } else {
      assert ds == if In(s, Done, k) then {Done} else {Failed};
    }
  }

  /**
   Once enqueued, and until it is deleted or cleaned, a job is in one of seven sets of
   directories at every step, and each of its files is a complete copy with the same core.
   */
  lemma NoJobLost(states: seq<State>, steps: seq<Step>, i: nat, j: nat, id: string)
    requires Run(states, steps) && RemovesSucceed(steps) && i <= j <= |steps|
    requires id in states[i].enqueued && id !in states[j].gone
    ensures
      var job, s := states[i].enqueued[id], states[j];
      && DirsOf(s, job.FileKey()) in
           {{Pending}, {Pending, Running}, {Running}, {Running, Done}, {Running, Failed}, {Done}, {Failed}}
      && forall d | d in DirsOf(s, job.FileKey()) ::
           s.files[Fin(d, job.FileKey())].content.Whole? && SameCore(s.files[Fin(d, job.FileKey())].content.job, job)
  {
    EnqueuedForever(states, steps, i, j, id);
    Invariant(states, steps, j);
    var job, s := states[i].enqueued[id], states[j];
    KnowJob(s, Key(0, id));
    var k := job.FileKey();
    KnowJob(s, k);
    SevenSets(s, k);
    forall d | d in DirsOf(s, k)
      ensures s.files[Fin(d, k)].content.Whole? && SameCore(s.files[Fin(d, k)].content.job, job)
    {
      assert FileInv(s, Fin(d, k));
    }
  }

  /**
   For every stored copy in every reachable state, the status inferred from its fields is its
   directory, except exactly for a failed job with an empty error message (inferred done).
   */
  lemma InferenceAgrees(states: seq<State>, steps: seq<Step>, i: nat, n: Name)
    requires Run(states, steps) && RemovesSucceed(steps) && i <= |steps|
    requires n in states[i].files && !n.tmp
    ensures states[i].files[n].content.Whole?
    ensures
      var job := states[i].files[n].content.job;
      Infer(job) == n.dir <==> !(n.dir == Failed && job.error == "")
  {
    Invariant(states, steps, i);
    assert FileInv(states[i], n);
  }

  /** Both an empty and a non-empty failure message occur; MarkFailed's message alone decides. */
  lemma InferenceAfterFailure(job: Job, now: int, code: int, msg: string)
    requires Fits(Running, job)
    ensures Infer(FailedWith(job, now, code, msg)) == Failed <==> msg != ""
  {
  }

  /** GetJob never answers "not found" for a job enqueued before the call and not removed since. */
  lemma GetJobNeverMisses(states: seq<State>, steps: seq<Step>, i: nat, r: nat)
    requires Run(states, steps) && RemovesSucceed(steps) && i <= |steps|
    requires r in states[i].scans && states[i].scans[r].NotFound? && states[i].scans[r].sure
    ensures states[i].scans[r].id in states[i].gone
  {
    Invariant(states, steps, i);
    assert ScanInv(states[i], r);
  }

  lemma LaterDirectory(s: State, k: Key, dir: Status)
    requires Reached(s, k, Rank(dir)) && !In(s, dir, k)
    ensures exists d :: Rank(d) > Rank(dir) && In(s, d, k)
  {
    if In(s, Failed, k) && dir != Failed {
      assert Rank(Failed) > Rank(dir);
    } else if In(s, Done, k) && Rank(dir) < 2 {
      assert Rank(Done) > Rank(dir);
    } else {
      assert Rank(Running) > Rank(dir) && In(s, Running, k);
    }
  }

  /**
   The answer of GetJob's read: the job as the directory held it at that moment, and a read
   error exactly when the file had left the directory since it was listed. A job not removed
   is then in a later directory, where a scan that went on would find it.
   */
  lemma GetJobAnswers(states: seq<State>, steps: seq<Step>, i: nat, r: nat)
    requires Run(states, steps) && RemovesSucceed(steps) && i < |steps| && steps[i] == Scan(r, ScanRead)
    ensures r in states[i].scans && states[i].scans[r].Reading?
    ensures
      var s, sc, answer := states[i], states[i].scans[r], states[i + 1].scans[r];
      && (answer.ReadError? <==> !In(s, sc.dir, sc.key))
      && (answer.Found? <==> In(s, sc.dir, sc.key))
      && (answer.Found? ==>
            && answer.dir == sc.dir && s.files[Fin(sc.dir, sc.key)].content == Whole(answer.job)
            && answer.job.id == sc.id && Copies(s, answer.job))
      && (answer.ReadError? && sc.id !in s.gone ==> exists d :: Rank(d) > Rank(sc.dir) && In(s, d, sc.key))
  {
    Invariant(states, steps, i);
    assert Enabled(states[i], steps[i]);
    var s, sc := states[i], states[i].scans[r];
    assert ScanInv(s, r);
    assert FileInv(s, Fin(sc.dir, sc.key));
    if !In(s, sc.dir, sc.key) && sc.id !in s.gone {
      LaterDirectory(s, sc.key, sc.dir);
    }
  }

  /**
   Whenever a worker that has not crashed, and whose status changes and removals succeeded, is
   outside the processing of a job it was handed, no copy of that job is left in running.
   */
  lemma NothingLeftRunning(states: seq<State>, steps: seq<Step>, i: nat, p: nat, id: string)
    requires Run(states, steps) && RemovesSucceed(steps) && i <= |steps|
    requires p !in states[i].broken && PcOf(states[i], p).Idle?
    requires id in states[i].owner && states[i].owner[id] == p
    ensures id in states[i].enqueued && !In(states[i], Running, states[i].enqueued[id].FileKey())
    ensures id !in states[i].gone ==>
              var k := states[i].enqueued[id].FileKey();
              DirsOf(states[i], k) in {{Done}, {Failed}}
  {
    Invariant(states, steps, i);
    var s := states[i];
    assert IdInv(s, id) && OwnerInv(s, id) && LiveInv(s, id);
    if id !in s.gone {
      SevenSets(s, s.enqueued[id].FileKey());
    }
  }
}

/**
 The two models of the queue agree: an uninterrupted run of the protocol's system calls does
 what FileQueue's method does in one go. Built from such runs: where the guarantees end.
 */
module QueueRefinement {
  import opened Job
  import opened Filename
  import opened Strings
  import FQ = FileQueue
  import opened QueueProtocol
  import opened QueueInvariant

  // ---------------------------------------------------------------- runs of one process

  /** s with the file system and p's program counter replaced. */
  function With(s: State, p: nat, files: map<Name, File>, nextIno: nat, locks: map<nat, nat>, pc: Pc): State {
    s.(files := files, nextIno := nextIno, locks := locks, pcs := s.pcs[p := pc])
  }

  /** acts, each enabled when its turn comes, lead from s to t. */
  ghost predicate Path<S, A>(step: (S, A) -> Option<S>, s: S, acts: seq<A>, t: S)
    decreases |acts|
  {
    if acts == [] then s == t
    else step(s, acts[0]).Some? && Path(step, step(s, acts[0]).value, acts[1..], t)
  }

  lemma OneMore<S, A>(step: (S, A) -> Option<S>, s: S, a: A, s1: S, rest: seq<A>, t: S)
    requires step(s, a) == Some(s1) && Path(step, s1, rest, t)
    ensures Path(step, s, [a] + rest, t)
  {
    assert ([a] + rest)[1..] == rest;
  }

  lemma {:induction false} Join<S, A>(step: (S, A) -> Option<S>, s: S, xs: seq<A>, t: S, ys: seq<A>, u: S)
    requires Path(step, s, xs, t) && Path(step, t, ys, u)
    ensures Path(step, s, xs + ys, u)
    decreases |xs|
  {
    if xs == [] {
      assert xs + ys == ys;
    } else {
      var s1 := step(s, xs[0]).value;
      Join(step, s1, xs[1..], t, ys, u);
      OneMore(step, s, xs[0], s1, xs[1..] + ys, u);
      assert [xs[0]] + (xs[1..] + ys) == xs + ys;
    }
  }

  function ClaimsOf(p: nat): (State, ClaimAction) -> Option<State> {
    (s, a) => if CanClaim(s, p, a) then Some(DoClaim(s, p, a)) else None
  }

  ghost predicate ClaimPath(s: State, p: nat, acts: seq<ClaimAction>, t: State) {
    Path(ClaimsOf(p), s, acts, t)
  }

  lemma PathStep(s: State, p: nat, a: ClaimAction, rest: seq<ClaimAction>, t: State)
    requires CanClaim(s, p, a) && ClaimPath(DoClaim(s, p, a), p, rest, t)
    ensures ClaimPath(s, p, [a] + rest, t)
  {
    OneMore(ClaimsOf(p), s, a, DoClaim(s, p, a), rest, t);
  }

  function TmpIno(s: State, n: Name): nat {
    if n in s.files then s.files[n].ino else s.nextIno
  }

  function NextIno(s: State, n: Name): nat {
    if n in s.files then s.nextIno else s.nextIno + 1
  }

  /** Opened, locked and found in place. */
  function LockedState(s: State, p: nat, k: Key, ino: nat): State {
    With(s, p, s.files, s.nextIno, s.locks[ino := p], Stated(k, ino))
  }

  /** Read, and the temporary file opened. */
  function ReadState(s: State, p: nat, k: Key, ino: nat, job: Job): State {
    var n := Tmp(Running, k);
    With(s, p, s.files[n := File(TmpIno(s, n), Partial)], NextIno(s, n), s.locks, Claiming(k, ino, job, Truncated))
  }

  /** The temporary file renamed to the job's file. */
  function Put(files: map<Name, File>, d: Status, k: Key, ino: nat, job: Job): map<Name, File> {
    (files - {Tmp(d, k)})[Fin(d, k) := File(ino, Whole(job))]
  }

  /** Written and renamed. */
  function WrittenState(s: State, p: nat, k: Key, ino: nat, job: Job): State
    requires Tmp(Running, k) in s.files
  {
    With(s, p, Put(s.files, Running, k, s.files[Tmp(Running, k)].ino, job), s.nextIno, s.locks,
         Claiming(k, ino, job, Renamed))
  }

  /** The pending file removed, or not, and the job handed out. */
  function HandedState(s: State, p: nat, k: Key, ino: nat, job: Job, removed: bool): State {
    With(s, p, if removed then s.files - {Fin(Pending, k)} else s.files, s.nextIno, s.locks - {ino}, Holding(job))
    .(handed := s.handed + multiset{job.id}, owner := s.owner[job.id := p])
  }

  lemma Locking(s: State, p: nat, k: Key)
    requires PcOf(s, p).Idle? && In(s, Pending, k) && s.files[Fin(Pending, k)].ino !in s.locks
    ensures ClaimPath(s, p, [Open(k)] + ([LockFree] + ([StatPresent] + [])),
                      LockedState(s, p, k, s.files[Fin(Pending, k)].ino))
  {
    var ino := s.files[Fin(Pending, k)].ino;
    var s1 := DoClaim(s, p, Open(k));
    assert s1 == With(s, p, s.files, s.nextIno, s.locks, Opened(k, ino));
    var s2 := DoClaim(s1, p, LockFree);
    assert s2 == With(s, p, s.files, s.nextIno, s.locks[ino := p], Locked(k, ino));
    var s3 := DoClaim(s2, p, StatPresent);
    assert s3 == LockedState(s, p, k, ino);
    PathStep(s2, p, StatPresent, [], s3);
    PathStep(s1, p, LockFree, [StatPresent] + [], s3);
    PathStep(s, p, Open(k), [LockFree] + ([StatPresent] + []), s3);
  }

  lemma TruncateIs(s: State, n: Name)
    ensures Truncate(s, n) == s.(files := s.files[n := File(TmpIno(s, n), Partial)], nextIno := NextIno(s, n))
  {
  }

  lemma Truncating(s: State, p: nat, k: Key, ino: nat, job: Job)
    requires PcOf(s, p) == Claiming(k, ino, job, Fresh)
    ensures DoClaim(s, p, ClaimTruncate) == ReadState(s, p, k, ino, job)
  {
    var n := Tmp(Running, k);
    TruncateIs(s, n);
    assert DoClaim(s, p, ClaimTruncate) == SetPc(Truncate(s, n), p, Claiming(k, ino, job, Truncated));
  }

  lemma Reading(s: State, p: nat, k: Key, ino: nat, now: int)
    requires PcOf(s, p) == Stated(k, ino) && In(s, Pending, k) && s.files[Fin(Pending, k)].content.Whole?
    ensures ClaimPath(s, p, [Read(now)] + ([ClaimTruncate] + []),
                      ReadState(s, p, k, ino, Started(s.files[Fin(Pending, k)].content.job, now)))
  {
    var job := Started(s.files[Fin(Pending, k)].content.job, now);
    var s1 := DoClaim(s, p, Read(now));
    assert s1 == With(s, p, s.files, s.nextIno, s.locks, Claiming(k, ino, job, Fresh));
    Truncating(s1, p, k, ino, job);
    var s2 := DoClaim(s1, p, ClaimTruncate);
    assert s2 == ReadState(s, p, k, ino, job);
    PathStep(s1, p, ClaimTruncate, [], s2);
    PathStep(s, p, Read(now), [ClaimTruncate] + [], s2);
  }

  lemma Writing(s: State, p: nat, k: Key, ino: nat, job: Job)
    requires PcOf(s, p) == Claiming(k, ino, job, Truncated) && Tmp(Running, k) in s.files
    ensures ClaimPath(s, p, [ClaimWrite] + ([ClaimRename] + []), WrittenState(s, p, k, ino, job))
  {
    var n := Tmp(Running, k);
    var file := File(s.files[n].ino, Whole(job));
    var s1 := DoClaim(s, p, ClaimWrite);
    assert s1 == With(s, p, s.files[n := file], s.nextIno, s.locks, Claiming(k, ino, job, Written));
    var s2 := DoClaim(s1, p, ClaimRename);
    assert s.files[n := file] - {n} == s.files - {n};
    assert s2 == WrittenState(s, p, k, ino, job);
    PathStep(s1, p, ClaimRename, [], s2);
    PathStep(s, p, ClaimWrite, [ClaimRename] + [], s2);
  }

  function RemoveAct(removed: bool): ClaimAction {
    if removed then ClaimRemove else ClaimRemoveFails
  }

  lemma Removing(s: State, p: nat, k: Key, ino: nat, job: Job, removed: bool)
    requires PcOf(s, p) == Claiming(k, ino, job, Renamed)
    ensures ClaimPath(s, p, [RemoveAct(removed)] + ([HandOut] + []), HandedState(s, p, k, ino, job, removed))
  {
    var left := if removed then s.files - {Fin(Pending, k)} else s.files;
    var s1 := DoClaim(s, p, RemoveAct(removed));
    assert s1 == With(s, p, left, s.nextIno, s.locks, Claimed(k, ino, job));
    var s2 := DoClaim(s1, p, HandOut);
    assert s2 == HandedState(s, p, k, ino, job, removed);
    PathStep(s1, p, HandOut, [], s2);
    PathStep(s, p, RemoveAct(removed), [HandOut] + [], s2);
  }

  /** Where p's uninterrupted claim of k leads; `removed` tells whether its os.Remove succeeds. */
  function ClaimedState(s: State, p: nat, k: Key, now: int, removed: bool): State
    requires In(s, Pending, k) && s.files[Fin(Pending, k)].content.Whole?
  {
    var ino, job := s.files[Fin(Pending, k)].ino, Started(s.files[Fin(Pending, k)].content.job, now);
    var s1 := LockedState(s, p, k, ino);
    var s2 := ReadState(s1, p, k, ino, job);
    HandedState(WrittenState(s2, p, k, ino, job), p, k, ino, job, removed)
  }

  lemma JoinFour(s: State, p: nat, s1: State, s2: State, s3: State, t: State, k: Key, now: int, removed: bool)
      returns (acts: seq<ClaimAction>)
    requires ClaimPath(s, p, [Open(k)] + ([LockFree] + ([StatPresent] + [])), s1)
    requires ClaimPath(s1, p, [Read(now)] + ([ClaimTruncate] + []), s2)
    requires ClaimPath(s2, p, [ClaimWrite] + ([ClaimRename] + []), s3)
    requires ClaimPath(s3, p, [RemoveAct(removed)] + ([HandOut] + []), t)
    ensures ClaimPath(s, p, acts, t)
    ensures removed ==> ClaimRemoveFails !in acts
  {
    var a := [Open(k)] + ([LockFree] + ([StatPresent] + []));
    var b := [Read(now)] + ([ClaimTruncate] + []);
    var c := [ClaimWrite] + ([ClaimRename] + []);
    var d := [RemoveAct(removed)] + ([HandOut] + []);
    Join(ClaimsOf(p), s, a, s1, b, s2);
    Join(ClaimsOf(p), s, a + b, s2, c, s3);
    Join(ClaimsOf(p), s, a + b + c, s3, d, t);
    acts := a + b + c + d;
  }

  lemma SecondHalf(s: State, p: nat, k: Key, ino: nat, job: Job, s1: State, s2: State, now: int, removed: bool)
      returns (acts: seq<ClaimAction>)
    requires ClaimPath(s, p, [Open(k)] + ([LockFree] + ([StatPresent] + [])), s1)
    requires ClaimPath(s1, p, [Read(now)] + ([ClaimTruncate] + []), s2)
    requires PcOf(s2, p) == Claiming(k, ino, job, Truncated) && Tmp(Running, k) in s2.files
    ensures ClaimPath(s, p, acts, HandedState(WrittenState(s2, p, k, ino, job), p, k, ino, job, removed))
    ensures removed ==> ClaimRemoveFails !in acts
  {
    Writing(s2, p, k, ino, job);
    var s3 := WrittenState(s2, p, k, ino, job);
    Removing(s3, p, k, ino, job, removed);
    acts := JoinFour(s, p, s1, s2, s3, HandedState(s3, p, k, ino, job, removed), k, now, removed);
  }

  lemma ClaimAlone(s: State, p: nat, k: Key, now: int, removed: bool) returns (acts: seq<ClaimAction>)
    requires PcOf(s, p).Idle? && In(s, Pending, k) && s.files[Fin(Pending, k)].content.Whole?
    requires s.files[Fin(Pending, k)].ino !in s.locks
    ensures ClaimPath(s, p, acts, ClaimedState(s, p, k, now, removed))
    ensures removed ==> ClaimRemoveFails !in acts
  {
    var ino, job := s.files[Fin(Pending, k)].ino, Started(s.files[Fin(Pending, k)].content.job, now);
    Locking(s, p, k);
    var s1 := LockedState(s, p, k, ino);
    Reading(s1, p, k, ino, now);
    var s2 := ReadState(s1, p, k, ino, job);
    acts := SecondHalf(s, p, k, ino, job, s1, s2, now, removed);
  }

  // ---------------------------------------------------------------- the directories of the other model

  predicate SameContent(stored: FQ.Stored, content: Content) {
    content.Whole? && stored == FQ.Parsed(content.job)
  }

  /** One key's entry in one directory, in both models. */
  predicate Agree(dirs: FQ.Dirs, s: State, d: Status, k: Key) {
    var n := JobFilename(k.createdAt, k.id);
    && (n in dirs.At(d) <==> In(s, d, k))
    && (In(s, d, k) ==> SameContent(dirs.At(d)[n], s.files[Fin(d, k)].content))
  }

  /** dirs holds what s has under the names of jobs. */
  ghost predicate Represents(dirs: FQ.Dirs, s: State) {
    forall d, k :: Agree(dirs, s, d, k)
  }

  lemma ClaimedFiles(s: State, p: nat, k: Key, now: int, removed: bool, n: Name)
    requires In(s, Pending, k) && s.files[Fin(Pending, k)].content.Whole? && !n.tmp
    ensures
      var t := ClaimedState(s, p, k, now, removed);
      && (n == Fin(Running, k) ==>
            n in t.files && t.files[n].content == Whole(Started(s.files[Fin(Pending, k)].content.job, now)))
      && (n == Fin(Pending, k) ==> if removed then n !in t.files else SameFile(s, t, n))
      && (n != Fin(Running, k) && n != Fin(Pending, k) ==> SameFile(s, t, n))
  {
  }

  lemma OneName(k: Key, l: Key)
    ensures JobFilename(k.createdAt, k.id) == JobFilename(l.createdAt, l.id) <==> k == l
  {
    if JobFilename(k.createdAt, k.id) == JobFilename(l.createdAt, l.id) {
      FilenameInjective(k.createdAt, k.id, l.createdAt, l.id);
    }
  }

  lemma EntryPut(dirs: FQ.Dirs, s: State, t: State, d: Status, k: Key, ino: nat, job: Job, e: Status, l: Key)
    requires Agree(dirs, s, e, l) && t.files == Put(s.files, d, k, ino, job)
    ensures Agree(dirs.With(d, dirs.At(d)[JobFilename(k.createdAt, k.id) := FQ.Parsed(job)]), t, e, l)
  {
    OneName(k, l);
  }

  lemma EntryRemoved(dirs: FQ.Dirs, s: State, t: State, d: Status, k: Key, e: Status, l: Key)
    requires Agree(dirs, s, e, l) && t.files == s.files - {Fin(d, k)}
    ensures Agree(dirs.With(d, dirs.At(d) - {JobFilename(k.createdAt, k.id)}), t, e, l)
  {
    OneName(k, l);
  }

  /** Writing a job's file, in both models. */
  lemma PutRefines(dirs: FQ.Dirs, s: State, t: State, d: Status, k: Key, ino: nat, job: Job)
    requires Represents(dirs, s) && t.files == Put(s.files, d, k, ino, job)
    ensures Represents(dirs.With(d, dirs.At(d)[JobFilename(k.createdAt, k.id) := FQ.Parsed(job)]), t)
  {
    var after := dirs.With(d, dirs.At(d)[JobFilename(k.createdAt, k.id) := FQ.Parsed(job)]);
    forall e, l ensures Agree(after, t, e, l) {
      EntryPut(dirs, s, t, d, k, ino, job, e, l);
    }
  }

  /** Removing it. */
  lemma RemoveRefines(dirs: FQ.Dirs, s: State, t: State, d: Status, k: Key)
    requires Represents(dirs, s) && t.files == s.files - {Fin(d, k)}
    ensures Represents(dirs.With(d, dirs.At(d) - {JobFilename(k.createdAt, k.id)}), t)
  {
    var after := dirs.With(d, dirs.At(d) - {JobFilename(k.createdAt, k.id)});
    forall e, l ensures Agree(after, t, e, l) {
      EntryRemoved(dirs, s, t, d, k, e, l);
    }
  }

  /** moveJob: the new copy is put in place before the old one is removed. */
  lemma MoveRefines(dirs: FQ.Dirs, s: State, t: State, from: Status, to: Status, k: Key, ino: nat, job: Job)
    requires Represents(dirs, s) && t.files == Put(s.files, to, k, ino, job) - {Fin(from, k)}
    ensures Represents(FQ.Moved(dirs, from, to, JobFilename(k.createdAt, k.id), job), t)
  {
    var mid := s.(files := Put(s.files, to, k, ino, job));
    var d1 := dirs.With(to, dirs.At(to)[JobFilename(k.createdAt, k.id) := FQ.Parsed(job)]);
    PutRefines(dirs, s, mid, to, k, ino, job);
    RemoveRefines(d1, mid, t, from, k);
  }

  /**
   An uninterrupted claim of the protocol is the other model's TryClaimJob: the same move, of
   the same job, and the job handed out is the one returned.
   */
  lemma ClaimRefines(dirs: FQ.Dirs, s: State, p: nat, k: Key, now: int)
    requires Represents(dirs, s)
    requires In(s, Pending, k) && s.files[Fin(Pending, k)].content.Whole?
    ensures
      var t, name, job := ClaimedState(s, p, k, now, true), JobFilename(k.createdAt, k.id),
                          Started(s.files[Fin(Pending, k)].content.job, now);
      && name in dirs.pending && dirs.pending[name] == FQ.Parsed(s.files[Fin(Pending, k)].content.job)
      && Represents(FQ.Moved(dirs, Pending, Running, name, job), t)
      && PcOf(t, p) == Holding(job) && t.handed == s.handed + multiset{job.id}
  {
    var t, job := ClaimedState(s, p, k, now, true), Started(s.files[Fin(Pending, k)].content.job, now);
    var n := Tmp(Running, k);
    assert Agree(dirs, s, Pending, k);
    assert s.files[n := File(TmpIno(s, n), Partial)] - {n} == s.files - {n};
    MoveRefines(dirs, s, t, Pending, Running, k, TmpIno(s, n), job);
  }

  // ---------------------------------------------------------------- uninterrupted enqueues

  function EnqsOf(p: nat): (State, EnqAction) -> Option<State> {
    (s, a) => if CanEnq(s, p, a) then Some(DoEnq(s, p, a)) else None
  }

  /** The id drawn, and the temporary file opened. */
  function StartedState(s: State, p: nat, job: Job): State {
    var n := Tmp(Pending, job.FileKey());
    With(s, p, s.files[n := File(TmpIno(s, n), Partial)], NextIno(s, n), s.locks, Enqueuing(job, Truncated))
    .(used := s.used + {job.id})
  }

  /** Written and renamed. */
  function PublishedState(s: State, p: nat, job: Job): State
    requires Tmp(Pending, job.FileKey()) in s.files
  {
    var ino := s.files[Tmp(Pending, job.FileKey())].ino;
    With(s, p, Put(s.files, Pending, job.FileKey(), ino, job), s.nextIno, s.locks, Idle)
    .(enqueued := s.enqueued[job.id := job], born := s.born[job.FileKey() := ino])
  }

  /** Where p's uninterrupted Enqueue of job leads. */
  function EnqueuedState(s: State, p: nat, job: Job): State {
    PublishedState(StartedState(s, p, job), p, job)
  }

  lemma Starting(s: State, p: nat, job: Job)
    requires CanEnq(s, p, Start(job))
    ensures Path(EnqsOf(p), s, [Start(job)] + ([EnqTruncate] + []), StartedState(s, p, job))
  {
    var n := Tmp(Pending, job.FileKey());
    var s1 := DoEnq(s, p, Start(job));
    assert s1 == With(s, p, s.files, s.nextIno, s.locks, Enqueuing(job, Fresh)).(used := s.used + {job.id});
    TruncateIs(s1, n);
    var s2 := DoEnq(s1, p, EnqTruncate);
    assert s2 == StartedState(s, p, job);
    OneMore(EnqsOf(p), s1, EnqTruncate, s2, [], s2);
    OneMore(EnqsOf(p), s, Start(job), s1, [EnqTruncate] + [], s2);
  }

  lemma Publishing(s: State, p: nat, job: Job)
    requires PcOf(s, p) == Enqueuing(job, Truncated) && Tmp(Pending, job.FileKey()) in s.files
    ensures Path(EnqsOf(p), s, [EnqWrite] + ([EnqRename] + []), PublishedState(s, p, job))
  {
    var n := Tmp(Pending, job.FileKey());
    var file := File(s.files[n].ino, Whole(job));
    var s1 := DoEnq(s, p, EnqWrite);
    assert s1 == With(s, p, s.files[n := file], s.nextIno, s.locks, Enqueuing(job, Written));
    var s2 := DoEnq(s1, p, EnqRename);
    assert s.files[n := file] - {n} == s.files - {n};
    assert s2 == PublishedState(s, p, job);
    OneMore(EnqsOf(p), s1, EnqRename, s2, [], s2);
    OneMore(EnqsOf(p), s, EnqWrite, s1, [EnqRename] + [], s2);
  }

  /** Whatever the request, its record can be enqueued under an unused id. */
  lemma AnyRequestStarts(s: State, p: nat, id: string, flow: string, inputs: map<string, string>, now: int)
    requires PcOf(s, p).Idle? && id !in s.used
    ensures
      var job := Job(id, flow, inputs, now, None, None, "", None);
      CanEnq(s, p, Start(job)) && EnqueuedState(s, p, job).enqueued == s.enqueued[id := job]
  {
  }

  lemma EnqueueAlone(s: State, p: nat, job: Job) returns (acts: seq<EnqAction>)
    requires CanEnq(s, p, Start(job))
    ensures Path(EnqsOf(p), s, acts, EnqueuedState(s, p, job))
  {
    Starting(s, p, job);
    Publishing(StartedState(s, p, job), p, job);
    acts := ([Start(job)] + ([EnqTruncate] + [])) + ([EnqWrite] + ([EnqRename] + []));
    Join(EnqsOf(p), s, [Start(job)] + ([EnqTruncate] + []), StartedState(s, p, job),
         [EnqWrite] + ([EnqRename] + []), EnqueuedState(s, p, job));
  }

  /**
   An uninterrupted enqueue is the other model's Enqueue: the same file, under a name that no
   directory has yet, which is what that method asks of its fresh id.
   */
  lemma EnqueueRefines(dirs: FQ.Dirs, s: State, p: nat, job: Job)
    requires Inv(s) && Represents(dirs, s) && CanEnq(s, p, Start(job))
    ensures
      var t := EnqueuedState(s, p, job);
      && (forall d :: FQ.Name(job) !in dirs.At(d))
      && Represents(dirs.With(Pending, dirs.pending[FQ.Name(job) := FQ.Parsed(job)]), t)
      && PcOf(t, p).Idle? && job.id in t.enqueued && t.enqueued[job.id] == job
  {
    var k := job.FileKey();
    forall d ensures FQ.Name(job) !in dirs.At(d) {
      assert Agree(dirs, s, d, k) && FileInv(s, Fin(d, k)) && IdInv(s, k.id);
    }
    var n := Tmp(Pending, k);
    assert s.files[n := File(TmpIno(s, n), Partial)] - {n} == s.files - {n};
    PutRefines(dirs, s, EnqueuedState(s, p, job), Pending, k, TmpIno(s, n), job);
  }

  // ---------------------------------------------------------------- uninterrupted status changes

  function MarksOf(p: nat): (State, MarkAction) -> Option<State> {
    (s, a) => if CanMark(s, p, a) then Some(DoMark(s, p, a)) else None
  }

  predicate EndsJob(m: MarkAction) {
    m.MarkDone? || m.MarkFailed?
  }

  function Target(m: MarkAction): Status
    requires EndsJob(m)
  {
    if m.MarkDone? then Done else Failed
  }

  function Ended(m: MarkAction, job: Job): Job
    requires EndsJob(m)
  {
    match m
    case MarkDone(now, code) => Succeeded(job, now, code)
    case MarkFailed(now, code, msg) => FailedWith(job, now, code, msg)
  }

  /** The new copy's temporary file opened. */
  function EndingState(s: State, p: nat, to: Status, job: Job): State {
    var n := Tmp(to, job.FileKey());
    With(s, p, s.files[n := File(TmpIno(s, n), Partial)], NextIno(s, n), s.locks, Marking(to, job, Truncated))
  }

  /** Written and renamed. */
  function EndedState(s: State, p: nat, to: Status, job: Job): State
    requires Tmp(to, job.FileKey()) in s.files
  {
    With(s, p, Put(s.files, to, job.FileKey(), s.files[Tmp(to, job.FileKey())].ino, job), s.nextIno, s.locks,
         Marking(to, job, Renamed))
  }

  /** The file in running removed. */
  function LeftState(s: State, p: nat, job: Job): State {
    With(s, p, s.files - {Fin(Running, job.FileKey())}, s.nextIno, s.locks, Idle)
  }

  /** Where p's uninterrupted MarkDone or MarkFailed leads; job is the new copy. */
  function MarkedState(s: State, p: nat, to: Status, job: Job): State {
    LeftState(EndedState(EndingState(s, p, to, job), p, to, job), p, job)
  }

  lemma Ending(s: State, p: nat, m: MarkAction, job: Job)
    requires EndsJob(m) && PcOf(s, p) == Holding(job)
    ensures Path(MarksOf(p), s, [m] + ([MarkTruncate] + []), EndingState(s, p, Target(m), Ended(m, job)))
  {
    var to, ended := Target(m), Ended(m, job);
    var s1 := DoMark(s, p, m);
    assert s1 == With(s, p, s.files, s.nextIno, s.locks, Marking(to, ended, Fresh));
    TruncateIs(s1, Tmp(to, ended.FileKey()));
    var s2 := DoMark(s1, p, MarkTruncate);
    assert s2 == EndingState(s, p, to, ended);
    OneMore(MarksOf(p), s1, MarkTruncate, s2, [], s2);
    OneMore(MarksOf(p), s, m, s1, [MarkTruncate] + [], s2);
  }

  lemma EndWritten(s: State, p: nat, to: Status, job: Job)
    requires PcOf(s, p) == Marking(to, job, Truncated) && Tmp(to, job.FileKey()) in s.files
    ensures Path(MarksOf(p), s, [MarkWrite] + ([MarkRename] + []), EndedState(s, p, to, job))
  {
    var n := Tmp(to, job.FileKey());
    var file := File(s.files[n].ino, Whole(job));
    var s1 := DoMark(s, p, MarkWrite);
    assert s1 == With(s, p, s.files[n := file], s.nextIno, s.locks, Marking(to, job, Written));
    var s2 := DoMark(s1, p, MarkRename);
    assert s.files[n := file] - {n} == s.files - {n};
    assert s2 == EndedState(s, p, to, job);
    OneMore(MarksOf(p), s1, MarkRename, s2, [], s2);
    OneMore(MarksOf(p), s, MarkWrite, s1, [MarkRename] + [], s2);
  }

  lemma EndRemoved(s: State, p: nat, to: Status, job: Job)
    requires PcOf(s, p) == Marking(to, job, Renamed)
    ensures Path(MarksOf(p), s, [MarkRemove] + [], LeftState(s, p, job))
  {
    var s1 := LeftState(s, p, job);
    assert DoMark(s, p, MarkRemove) == s1;
    OneMore(MarksOf(p), s, MarkRemove, s1, [], s1);
  }

  lemma EndThree(s: State, p: nat, m: MarkAction, s1: State, s2: State, t: State) returns (acts: seq<MarkAction>)
    requires Path(MarksOf(p), s, [m] + ([MarkTruncate] + []), s1)
    requires Path(MarksOf(p), s1, [MarkWrite] + ([MarkRename] + []), s2)
    requires Path(MarksOf(p), s2, [MarkRemove] + [], t)
    ensures Path(MarksOf(p), s, acts, t)
  {
    var a, b, c := [m] + ([MarkTruncate] + []), [MarkWrite] + ([MarkRename] + []), [MarkRemove] + [];
    Join(MarksOf(p), s, a, s1, b, s2);
    Join(MarksOf(p), s, a + b, s2, c, t);
    acts := a + b + c;
  }

  lemma MarkAlone(s: State, p: nat, m: MarkAction, job: Job) returns (acts: seq<MarkAction>)
    requires EndsJob(m) && PcOf(s, p) == Holding(job)
    ensures Path(MarksOf(p), s, acts, MarkedState(s, p, Target(m), Ended(m, job)))
  {
    var to, ended := Target(m), Ended(m, job);
    Ending(s, p, m, job);
    var s1 := EndingState(s, p, to, ended);
    EndWritten(s1, p, to, ended);
    var s2 := EndedState(s1, p, to, ended);
    EndRemoved(s2, p, to, ended);
    acts := EndThree(s, p, m, s1, s2, LeftState(s2, p, ended));
  }

  /**
   An uninterrupted status change is the other model's MarkDone or MarkFailed, and it starts
   where that one is meant to be called: a job that is still there has its one file in running.
   */
  lemma MarkRefines(dirs: FQ.Dirs, s: State, p: nat, m: MarkAction, job: Job)
    requires Inv(s) && Represents(dirs, s) && EndsJob(m) && PcOf(s, p) == Holding(job)
    ensures
      var t := MarkedState(s, p, Target(m), Ended(m, job));
      && (job.id !in s.gone ==> FQ.OnlyIn(dirs, Running, FQ.Name(job)))
      && Represents(FQ.Moved(dirs, Running, Target(m), FQ.Name(job), Ended(m, job)), t)
      && PcOf(t, p).Idle? && t.handed == s.handed
  {
    var k, to, ended := job.FileKey(), Target(m), Ended(m, job);
    assert Agree(dirs, s, Pending, k) && Agree(dirs, s, Running, k);
    assert Agree(dirs, s, Done, k) && Agree(dirs, s, Failed, k);
    assert PcInv(s, p);
    assert s.files[Tmp(to, k) := File(TmpIno(s, Tmp(to, k)), Partial)] - {Tmp(to, k)} == s.files - {Tmp(to, k)};
    MoveRefines(dirs, s, MarkedState(s, p, to, ended), Running, to, k, TmpIno(s, Tmp(to, k)), ended);
  }

  // ---------------------------------------------------------------- when removing the pending file fails

  lemma ExtendOne(states: seq<State>, steps: seq<Step>, p: nat, a: ClaimAction)
    requires Run(states, steps) && CanClaim(states[|steps|], p, a)
    ensures Run(states + [DoClaim(states[|steps|], p, a)], steps + [Claim(p, a)])
  {
    var states1, steps1 := states + [DoClaim(states[|steps|], p, a)], steps + [Claim(p, a)];
    forall i | 0 <= i < |steps1|
      ensures Enabled(states1[i], steps1[i]) && states1[i + 1] == Apply(states1[i], steps1[i])
    {
      if i < |steps| {
        assert states1[i] == states[i] && states1[i + 1] == states[i + 1] && steps1[i] == steps[i];
      }
    }
  }

  lemma {:induction false} Extend(states: seq<State>, steps: seq<Step>, p: nat, acts: seq<ClaimAction>, t: State)
      returns (states': seq<State>, steps': seq<Step>)
    requires Run(states, steps) && ClaimPath(states[|steps|], p, acts, t)
    ensures Run(states', steps') && steps <= steps' && states'[|steps'|] == t
    ensures acts != [] ==> steps + [Claim(p, acts[0])] <= steps'
    ensures RemovesSucceed(steps) && ClaimRemoveFails !in acts ==> RemovesSucceed(steps')
    decreases |acts|
  {
    if acts == [] {
      states', steps' := states, steps;
    } else {
      ExtendOne(states, steps, p, acts[0]);
      var states1, steps1 := states + [DoClaim(states[|steps|], p, acts[0])], steps + [Claim(p, acts[0])];
      states', steps' := Extend(states1, steps1, p, acts[1..], t);
    }
  }

  lemma {:induction false} Largest(s: set<nat>) returns (top: nat)
    requires s != {}
    ensures top in s && forall x | x in s :: x <= top
    decreases |s|
  {
    var x :| x in s;
    if s == {x} {
      top := x;
    } else {
      assert forall z | z in s :: z == x || z in s - {x};
      var y := Largest(s - {x});
      top := if x < y then y else x;
    }
  }

  lemma {:induction false} UnusedProcess(used: set<nat>) returns (q: nat)
    ensures q !in used
    decreases |used|
  {
    if used == {} {
      q := 0;
    } else {
      var top := Largest(used);
      q := top + 1;
    }
  }

  /** What the invariant says of a claim about to remove its pending file. */
  lemma AboutToRemove(s: State, p: nat)
    requires Inv(s) && PcOf(s, p).Claiming? && PcOf(s, p).phase.Renamed? && In(s, Pending, PcOf(s, p).key)
    ensures
      var pc := PcOf(s, p);
      && s.files[Fin(Pending, pc.key)].content.Whole? && s.files[Fin(Pending, pc.key)].content.job.id == pc.job.id
      && s.files[Fin(Pending, pc.key)].ino == pc.ino
  {
    assert PcInv(s, p) && FileInv(s, Fin(Pending, PcOf(s, p).key));
  }

  /**
   The assumption of AtMostOnce is needed at every claim: if os.Remove fails there, which the
   code only logs, the run can go on to hand the same job out twice.
   */
  lemma FailedRemoveDuplicates(states: seq<State>, steps: seq<Step>, p: nat)
      returns (states': seq<State>, steps': seq<Step>)
    requires Run(states, steps) && RemovesSucceed(steps)
    requires PcOf(states[|steps|], p).Claiming? && PcOf(states[|steps|], p).phase.Renamed?
    requires In(states[|steps|], Pending, PcOf(states[|steps|], p).key)
    ensures Run(states', steps') && steps + [Claim(p, ClaimRemoveFails)] <= steps'
    ensures states'[|steps'|].handed[PcOf(states[|steps|], p).job.id] >= 2
  {
    var s := states[|steps|];
    Invariant(states, steps, |steps|);
    AboutToRemove(s, p);
    var pc := PcOf(s, p);
    Removing(s, p, pc.key, pc.ino, pc.job, false);
    var t := HandedState(s, p, pc.key, pc.ino, pc.job, false);
    var states1, steps1 := Extend(states, steps, p, [RemoveAct(false)] + ([HandOut] + []), t);
    var q := UnusedProcess(t.pcs.Keys);
    var acts := ClaimAlone(t, q, pc.key, 0, true);
    var u := ClaimedState(t, q, pc.key, 0, true);
    states', steps' := Extend(states1, steps1, q, acts, u);
    assert ([RemoveAct(false)] + ([HandOut] + []))[0] == ClaimRemoveFails;
  }

  lemma ScanLast(states: seq<State>, steps: seq<Step>, r: nat)
    requires Run(states, steps) && CanScan(states[|steps|], r, ScanRead)
    ensures Run(states + [DoScan(states[|steps|], r, ScanRead)], steps + [Scan(r, ScanRead)])
  {
    var states1, steps1 := states + [DoScan(states[|steps|], r, ScanRead)], steps + [Scan(r, ScanRead)];
    forall i | 0 <= i < |steps1|
      ensures Enabled(states1[i], steps1[i]) && states1[i + 1] == Apply(states1[i], steps1[i])
    {
      if i < |steps| {
        assert states1[i] == states[i] && states1[i + 1] == states[i + 1] && steps1[i] == steps[i];
      }
    }
  }

  lemma ListedPending(states: seq<State>, steps: seq<Step>, r: nat, k: Key)
    requires Run(states, steps) && RemovesSucceed(steps)
    requires var s := states[|steps|];
             In(s, Pending, k) && r in s.scans && s.scans[r].Reading? && s.scans[r].key == k
    ensures var s := states[|steps|];
            s.files[Fin(Pending, k)].content.Whole? && k.id in s.enqueued && s.scans[r].id == k.id
  {
    Invariant(states, steps, |steps|);
    assert FileInv(states[|steps|], Fin(Pending, k)) && ScanInv(states[|steps|], r);
  }

  /** A scan that has listed the pending file finds it gone. */
  lemma ClaimLosesScan(s: State, p: nat, r: nat, k: Key)
    requires In(s, Pending, k) && s.files[Fin(Pending, k)].content.Whole?
    requires r in s.scans && s.scans[r].Reading? && s.scans[r].dir == Pending && s.scans[r].key == k
    ensures
      var t := ClaimedState(s, p, k, 0, true);
      && CanScan(t, r, ScanRead) && DoScan(t, r, ScanRead).scans[r] == ReadError(s.scans[r].id)
      && t.enqueued == s.enqueued && t.gone == s.gone && In(DoScan(t, r, ScanRead), Running, k)
  {
    ClaimedFiles(s, p, k, 0, true, Fin(Pending, k));
    ClaimedFiles(s, p, k, 0, true, Fin(Running, k));
  }

  /**
   GetJob can fail for a job that is there all the time: whenever it has listed a pending job
   that nobody is claiming, a claim before its read makes it return a read error, although its
   comment says that it goes on to the next directory.
   */
  lemma ReadErrorForLiveJob(states: seq<State>, steps: seq<Step>, p: nat, r: nat, k: Key)
      returns (states': seq<State>, steps': seq<Step>)
    requires Run(states, steps) && RemovesSucceed(steps)
    requires var s := states[|steps|];
             && PcOf(s, p).Idle? && In(s, Pending, k) && s.files[Fin(Pending, k)].ino !in s.locks && k.id !in s.gone
             && r in s.scans && s.scans[r].Reading? && s.scans[r].dir == Pending && s.scans[r].key == k
    ensures Run(states', steps') && RemovesSucceed(steps') && steps <= steps'
    ensures var t := states'[|steps'|];
            && r in t.scans && t.scans[r] == ReadError(k.id)
            && k.id in t.enqueued && k.id !in t.gone && In(t, Running, k)
  {
    var s := states[|steps|];
    ListedPending(states, steps, r, k);
    var acts := ClaimAlone(s, p, k, 0, true);
    var t := ClaimedState(s, p, k, 0, true);
    var states1, steps1 := Extend(states, steps, p, acts, t);
    ClaimLosesScan(s, p, r, k);
    steps' := steps1 + [Scan(r, ScanRead)];
    states' := states1 + [DoScan(t, r, ScanRead)];
    ScanLast(states1, steps1, r);
  }
}

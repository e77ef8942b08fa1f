/** The invariant of the queue protocol, and that every step keeps it. */
module QueueInvariant {
  import opened Job
  import opened QueueProtocol

  // ---------------------------------------------------------------- invariant

  predicate Live(s: State, id: string) {
    id in s.enqueued && id !in s.gone
  }

  /** A finished file is a complete copy of the job enqueued under its name. */
  predicate FileInv(s: State, n: Name) {
    n in s.files && !n.tmp ==>
      && n.key.id in s.enqueued
      && s.files[n].content.Whole?
      && SameCore(s.files[n].content.job, s.enqueued[n.key.id])
      && s.enqueued[n.key.id].FileKey() == n.key
      && Fits(n.dir, s.files[n].content.job)
      && (n.dir == Pending ==> n.key in s.born && s.files[n].ino == s.born[n.key])
  }

  predicate IdInv(s: State, id: string) {
    && (id in s.enqueued ==> id in s.used && s.enqueued[id].id == id && s.enqueued[id].FileKey() in s.born)
    && s.handed[id] <= 1
    && (s.handed[id] == 1 ==> id in s.owner && id in s.enqueued && !In(s, Pending, s.enqueued[id].FileKey()))
    && (id in s.owner ==> s.handed[id] == 1)
  }

  predicate KeyInv(s: State, k: Key) {
    k in s.born ==> k.id in s.enqueued && s.enqueued[k.id].FileKey() == k
  }

  /** The directories of a job that is neither deleted nor cleaned: one of seven sets. */
  predicate Placed(s: State, k: Key) {
    && (In(s, Pending, k) || In(s, Running, k) || In(s, Done, k) || In(s, Failed, k))
    && !(In(s, Done, k) && In(s, Failed, k))
    && (In(s, Pending, k) ==> !In(s, Done, k) && !In(s, Failed, k))
  }

  predicate LiveInv(s: State, id: string) {
    Live(s, id) ==> Placed(s, s.enqueued[id].FileKey())
  }

  predicate OnlyRunning(s: State, k: Key) {
    !In(s, Pending, k) && In(s, Running, k) && !In(s, Done, k) && !In(s, Failed, k)
  }

  predicate Copies(s: State, job: Job) {
    job.id in s.enqueued && SameCore(job, s.enqueued[job.id])
  }

  predicate TmpWhole(s: State, d: Status, k: Key, job: Job) {
    Tmp(d, k) in s.files && s.files[Tmp(d, k)].content == Whole(job)
  }

  predicate LockInv(s: State, p: nat, k: Key, ino: nat) {
    k in s.born && s.born[k] == ino && ino in s.locks && s.locks[ino] == p
  }

  predicate PcInv(s: State, p: nat) {
    match PcOf(s, p)
    case Idle => true
    case Enqueuing(job, phase) =>
      && job.id in s.used && job.id !in s.enqueued
      && IsNew(job)
      && !phase.Renamed?
      && (phase.Written? ==> TmpWhole(s, Pending, job.FileKey(), job))
    case Opened(k, ino) => k in s.born && s.born[k] == ino
    case Locked(k, ino) => LockInv(s, p, k, ino)
    case Stated(k, ino) =>
      && LockInv(s, p, k, ino) && s.handed[k.id] == 0
      && (Live(s, k.id) ==> In(s, Pending, k))
    case Claiming(k, ino, job, phase) =>
      && LockInv(s, p, k, ino) && s.handed[k.id] == 0
      && job.FileKey() == k && Copies(s, job) && Fits(Running, job)
      && (phase.Written? ==> TmpWhole(s, Running, k, job))
      && (Live(s, k.id) ==> In(s, Pending, k) && (phase.Renamed? ==> In(s, Running, k)))
    case Claimed(k, ino, job) =>
      && LockInv(s, p, k, ino) && s.handed[k.id] == 0
      && job.FileKey() == k && Copies(s, job) && Fits(Running, job)
      && !In(s, Pending, k)
      && (Live(s, k.id) ==> OnlyRunning(s, k))
    case Holding(job) =>
      && job.id in s.owner && s.owner[job.id] == p
      && Copies(s, job) && Fits(Running, job)
      && (Live(s, job.id) ==> OnlyRunning(s, job.FileKey()))
    case Marking(to, job, phase) =>
      && job.id in s.owner && s.owner[job.id] == p
      && Copies(s, job) && (to == Done || to == Failed) && Fits(to, job)
      && (phase.Written? ==> TmpWhole(s, to, job.FileKey(), job))
      && (Live(s, job.id) ==>
            && In(s, Running, job.FileKey()) && !In(s, Pending, job.FileKey())
            && (if phase.Renamed? then In(s, to, job.FileKey()) else OnlyRunning(s, job.FileKey())))
  }

  predicate Apart(s: State, p: nat, q: nat) {
    p != q && PcOf(s, p).Enqueuing? && PcOf(s, q).Enqueuing? ==> PcOf(s, p).job.id != PcOf(s, q).job.id
  }

  predicate Busy(pc: Pc, id: string) {
    (pc.Holding? || pc.Marking?) && pc.job.id == id
  }

  /** Outside processNext, none of a worker's own jobs is left in running. */
  predicate OwnerInv(s: State, id: string) {
    id in s.owner && id in s.enqueued && s.owner[id] !in s.broken && !Busy(PcOf(s, s.owner[id]), id) ==>
      !In(s, Running, s.enqueued[id].FileKey())
  }

  /** The job has a file in the directory of rank `at` or a later one. */
  predicate Reached(s: State, k: Key, at: nat) {
    || (at <= 0 && In(s, Pending, k)) || (at <= 1 && In(s, Running, k))
    || (at <= 2 && In(s, Done, k)) || (at <= 3 && In(s, Failed, k))
  }

  predicate ScanInv(s: State, r: nat) {
    r in s.scans ==>
      match s.scans[r]
      case Scanning(id, sure, at) =>
        && at <= 4 && (sure ==> id in s.enqueued)
        && (sure && Live(s, id) ==> Reached(s, s.enqueued[id].FileKey(), at))
      case Reading(id, _, key, dir) =>
        && key.id == id && id in s.enqueued && s.enqueued[id].FileKey() == key
        && (Live(s, id) ==> Reached(s, key, Rank(dir)))
      case Found(id, dir, job) => job.id == id && Copies(s, job) && Fits(dir, job)
      case ReadError(_) => true
      case NotFound(id, sure) => sure ==> id in s.enqueued && !Live(s, id)
  }

  ghost predicate Inv(s: State) {
    && (forall n :: FileInv(s, n))
    && (forall id :: IdInv(s, id))
    && (forall k :: KeyInv(s, k))
    && (forall id :: LiveInv(s, id))
    && (forall p :: PcInv(s, p))
    && (forall p, q :: Apart(s, p, q))
    && (forall id :: OwnerInv(s, id))
    && (forall r :: ScanInv(s, r))
  }

  // ---------------------------------------------------------------- preservation

  function PcKey(pc: Pc): Key {
    match pc
    case Idle => Key(0, "")
    case Opened(k, _) => k
    case Locked(k, _) => k
    case Stated(k, _) => k
    case Claiming(k, _, _, _) => k
    case Claimed(k, _, _) => k
    case Enqueuing(job, _) => job.FileKey()
    case Holding(job) => job.FileKey()
    case Marking(_, job, _) => job.FileKey()
  }

  predicate AroundFiles(s: State, k: Key) {
    forall d :: FileInv(s, Fin(d, k))
  }

  predicate AroundId(s: State, k: Key) {
    IdInv(s, k.id) && KeyInv(s, k) && LiveInv(s, k.id) && OwnerInv(s, k.id)
  }

  /** Everything the invariant says about one job. */
  predicate Around(s: State, k: Key) {
    AroundFiles(s, k) && AroundId(s, k)
  }

  predicate Settled(pc: Pc) {
    pc.Idle? || pc.Opened? || pc.Locked?
  }

  predicate Held(s: State, p: nat) {
    HasLock(PcOf(s, p)) ==> PcOf(s, p).ino in s.locks && s.locks[PcOf(s, p).ino] == p
  }

  lemma LockHeld(s: State, p: nat)
    requires PcInv(s, p)
    ensures Held(s, p)
  {
  }

  /** Mutual exclusion: at most one process is past its checks on, or in charge of, a given job. */
  predicate Exclusive(s: State, p: nat, q: nat) {
    p != q && !Settled(PcOf(s, p)) && !Settled(PcOf(s, q)) ==> PcKey(PcOf(s, p)).id != PcKey(PcOf(s, q)).id
  }

  lemma MutualExclusion(s: State, p: nat, q: nat)
    requires PcInv(s, p) && PcInv(s, q) && Apart(s, p, q)
    requires KeyInv(s, PcKey(PcOf(s, p))) && KeyInv(s, PcKey(PcOf(s, q)))
    requires IdInv(s, PcKey(PcOf(s, p)).id) && IdInv(s, PcKey(PcOf(s, q)).id)
    ensures Exclusive(s, p, q)
  {
  }

  predicate KeepsTmp(s: State, s': State, n: Name) {
    n in s.files ==> n in s'.files && s'.files[n] == s.files[n]
  }

  /** Nothing that q's program counter relies on has changed. */
  predicate Undisturbed(s: State, s': State, q: nat) {
    var pc := PcOf(s, q);
    var k := PcKey(pc);
    && PcOf(s', q) == pc
    && s.used <= s'.used
    && (pc.Enqueuing? ==> k.id !in s'.enqueued)
    && (k in s.born ==> k in s'.born && s'.born[k] == s.born[k])
    && (k.id in s.enqueued ==> k.id in s'.enqueued && s'.enqueued[k.id] == s.enqueued[k.id])
    && (k.id in s.owner ==> k.id in s'.owner && s'.owner[k.id] == s.owner[k.id])
    && (HasLock(pc) && pc.ino in s.locks ==> pc.ino in s'.locks && s'.locks[pc.ino] == s.locks[pc.ino])
    && (!Settled(pc) ==>
      && s'.handed[k.id] == s.handed[k.id]
      && (Live(s', k.id) ==>
        && Live(s, k.id)
        && In(s', Pending, k) == In(s, Pending, k) && In(s', Running, k) == In(s, Running, k)
        && In(s', Done, k) == In(s, Done, k) && In(s', Failed, k) == In(s, Failed, k))
      && (In(s', Pending, k) ==> In(s, Pending, k))
      && KeepsTmp(s, s', Tmp(Pending, k)) && KeepsTmp(s, s', Tmp(Running, k))
      && KeepsTmp(s, s', Tmp(Done, k)) && KeepsTmp(s, s', Tmp(Failed, k)))
  }

  lemma Frame(s: State, s': State, q: nat)
    requires PcInv(s, q) && Undisturbed(s, s', q)
    ensures PcInv(s', q)
  {
  }

  predicate SameFile(s: State, s': State, n: Name) {
    (n in s'.files <==> n in s.files) && (n in s.files ==> s'.files[n] == s.files[n])
  }

  predicate SameJob(s: State, s': State, id: string) {
    && (id in s'.enqueued <==> id in s.enqueued) && (id in s.enqueued ==> s'.enqueued[id] == s.enqueued[id])
    && s'.handed[id] == s.handed[id]
    && (id in s'.owner <==> id in s.owner) && (id in s.owner ==> s'.owner[id] == s.owner[id])
    && (id in s'.gone <==> id in s.gone)
  }

  predicate SameBirth(s: State, s': State, l: Key) {
    (l in s'.born <==> l in s.born) && (l in s.born ==> s'.born[l] == s.born[l])
  }

  ghost predicate SameProcesses(s: State, s': State, p: nat) {
    && (forall q | q != p :: PcOf(s', q) == PcOf(s, q))
    && (forall ino | ino in s.locks && s.locks[ino] != p :: ino in s'.locks && s'.locks[ino] == s.locks[ino])
    && s'.scans == s.scans
    && s.used <= s'.used && s.broken <= s'.broken
  }

  /** A step of process p about the job with key k leaves everything else as it was. */
  ghost predicate OnlyAbout(s: State, s': State, p: nat, k: Key) {
    && (forall n: Name | n.key != k :: SameFile(s, s', n))
    && (forall id | id != k.id :: SameJob(s, s', id))
    && (forall l | l != k :: SameBirth(s, s', l))
    && SameProcesses(s, s', p)
  }

  /** What was known about the job itself stays known, except its status. */
  predicate Grows(s: State, s': State, k: Key) {
    && (k in s.born ==> k in s'.born && s'.born[k] == s.born[k])
    && (k.id in s.enqueued ==> k.id in s'.enqueued && s'.enqueued[k.id] == s.enqueued[k.id])
    && (k.id in s.owner ==> k.id in s'.owner && s'.owner[k.id] == s.owner[k.id])
  }

  predicate NotBusyElsewhere(s: State, p: nat, k: Key) {
    Busy(PcOf(s, p), PcKey(PcOf(s, p)).id) ==> PcKey(PcOf(s, p)).id == k.id
  }

  lemma SameFilesOf(s: State, s': State, p: nat, k: Key, l: Key)
    requires OnlyAbout(s, s', p, k) && l != k
    ensures forall d :: In(s', d, l) == In(s, d, l) && KeepsTmp(s, s', Tmp(d, l))
  {
    forall d ensures In(s', d, l) == In(s, d, l) && KeepsTmp(s, s', Tmp(d, l)) {
      assert SameFile(s, s', Fin(d, l)) && SameFile(s, s', Tmp(d, l));
    }
  }

  lemma OthersUndisturbed(s: State, s': State, p: nat, k: Key, q: nat)
    requires OnlyAbout(s, s', p, k) && Grows(s, s', k) && p != q && Held(s, q)
    requires !Settled(PcOf(s, q)) ==> PcKey(PcOf(s, q)).id != k.id
    requires PcOf(s, q).Enqueuing? ==> PcKey(PcOf(s, q)).id !in s.enqueued
    ensures Undisturbed(s, s', q)
  {
    var l := PcKey(PcOf(s, q));
    assert PcOf(s', q) == PcOf(s, q);
    if l != k {
      assert SameBirth(s, s', l);
    }
    if l.id != k.id {
      assert SameJob(s, s', l.id);
      SameFilesOf(s, s', p, k, l);
    }
  }

  lemma OtherJobs(s: State, s': State, p: nat, k: Key, l: Key)
    requires OnlyAbout(s, s', p, k) && Around(s, l)
    requires l.id != k.id
    requires NotBusyElsewhere(s, p, k)
    ensures Around(s', l)
  {
    assert SameJob(s, s', l.id) && SameBirth(s, s', l);
    forall d ensures SameFile(s, s', Fin(d, l)) {
    }
    if l.id in s.enqueued && l != s.enqueued[l.id].FileKey() {
      assert SameBirth(s, s', s.enqueued[l.id].FileKey());
      assert forall d :: SameFile(s, s', Fin(d, s.enqueued[l.id].FileKey()));
    }
  }

  lemma OtherScans(s: State, s': State, p: nat, k: Key, r: nat)
    requires OnlyAbout(s, s', p, k) && ScanInv(s, r)
    requires r in s.scans && s.scans[r].id != k.id && IdInv(s, s.scans[r].id)
    ensures ScanInv(s', r)
  {
    var id := s.scans[r].id;
    assert SameJob(s, s', id);
    if id in s.enqueued {
      assert forall d :: SameFile(s, s', Fin(d, s.enqueued[id].FileKey()));
    }
  }

  function EnqKey(s: State, p: nat, a: EnqAction): Key {
    if a.Start? then a.job.FileKey() else PcKey(PcOf(s, p))
  }

  function ClaimKey(s: State, p: nat, a: ClaimAction): Key {
    if a.Open? then a.key else PcKey(PcOf(s, p))
  }

  lemma EnqFiles(s: State, p: nat, a: EnqAction, n: Name)
    requires CanEnq(s, p, a) && n.key != EnqKey(s, p, a)
    ensures SameFile(s, DoEnq(s, p, a), n)
  {
  }

  lemma EnqJobs(s: State, p: nat, a: EnqAction, l: Key)
    requires CanEnq(s, p, a) && l != EnqKey(s, p, a)
    ensures SameBirth(s, DoEnq(s, p, a), l)
    ensures l.id != EnqKey(s, p, a).id ==> SameJob(s, DoEnq(s, p, a), l.id)
  {
  }

  lemma EnqProcesses(s: State, p: nat, a: EnqAction)
    requires CanEnq(s, p, a) && Held(s, p)
    ensures SameProcesses(s, DoEnq(s, p, a), p)
  {
  }

  lemma EnqEffect(s: State, p: nat, a: EnqAction)
    requires CanEnq(s, p, a) && Held(s, p)
    ensures OnlyAbout(s, DoEnq(s, p, a), p, EnqKey(s, p, a))
  {
    var s', k := DoEnq(s, p, a), EnqKey(s, p, a);
    forall n: Name | n.key != k ensures SameFile(s, s', n) {
      EnqFiles(s, p, a, n);
    }
    forall id | id != k.id ensures SameJob(s, s', id) {
      EnqJobs(s, p, a, Key(0, id));
    }
    forall l | l != k ensures SameBirth(s, s', l) {
      EnqJobs(s, p, a, l);
    }
    EnqProcesses(s, p, a);
  }

  lemma EnqSelf(s: State, p: nat, a: EnqAction)
    requires CanEnq(s, p, a) && PcInv(s, p) && Around(s, EnqKey(s, p, a))
    ensures PcInv(DoEnq(s, p, a), p)
  {
  }

  lemma EnqJobFile(s: State, p: nat, a: EnqAction, d: Status)
    requires CanEnq(s, p, a) && PcInv(s, p) && FileInv(s, Fin(d, EnqKey(s, p, a)))
    ensures FileInv(DoEnq(s, p, a), Fin(d, EnqKey(s, p, a)))
  {
  }

  lemma EnqJobId(s: State, p: nat, a: EnqAction)
    requires CanEnq(s, p, a) && PcInv(s, p) && Around(s, EnqKey(s, p, a))
    ensures AroundId(DoEnq(s, p, a), EnqKey(s, p, a))
  {
    var k := EnqKey(s, p, a);
    assert FileInv(s, Fin(Pending, k)) && FileInv(s, Fin(Running, k));
    assert FileInv(s, Fin(Done, k)) && FileInv(s, Fin(Failed, k));
  }

  lemma EnqScan(s: State, p: nat, a: EnqAction, r: nat)
    requires CanEnq(s, p, a) && PcInv(s, p) && AroundId(s, EnqKey(s, p, a))
    requires ScanInv(s, r) && r in s.scans && s.scans[r].id == EnqKey(s, p, a).id
    ensures ScanInv(DoEnq(s, p, a), r)
  {
  }

  lemma ClaimFiles(s: State, p: nat, a: ClaimAction, n: Name)
    requires CanClaim(s, p, a) && !a.ClaimRemoveFails? && n.key != ClaimKey(s, p, a)
    ensures SameFile(s, DoClaim(s, p, a), n)
  {
  }

  predicate HandsOwn(s: State, p: nat) {
    PcOf(s, p).Claimed? ==> PcOf(s, p).job.FileKey() == PcOf(s, p).key
  }

  /** All that a claim adds to the history is the hand-out. */
  lemma ClaimHistory(s: State, p: nat, a: ClaimAction)
    requires CanClaim(s, p, a)
    ensures var t := DoClaim(s, p, a);
            && t.enqueued == s.enqueued && t.born == s.born && t.gone == s.gone
            && (!a.HandOut? ==> t.handed == s.handed && t.owner == s.owner)
  {
    match a
    case ClaimTruncate =>
    case ClaimWrite =>
    case ClaimRename =>
    case ClaimFail(_) =>
    case HandOut =>
    case _ =>
  }

  lemma ClaimJobs(s: State, p: nat, a: ClaimAction, l: Key)
    requires CanClaim(s, p, a) && !a.ClaimRemoveFails? && l != ClaimKey(s, p, a) && HandsOwn(s, p)
    ensures SameBirth(s, DoClaim(s, p, a), l)
    ensures l.id != ClaimKey(s, p, a).id ==> SameJob(s, DoClaim(s, p, a), l.id)
  {
    ClaimHistory(s, p, a);
  }

  lemma ClaimProcesses(s: State, p: nat, a: ClaimAction)
    requires CanClaim(s, p, a) && !a.ClaimRemoveFails? && Held(s, p)
    ensures SameProcesses(s, DoClaim(s, p, a), p)
  {
  }

  lemma ClaimEffect(s: State, p: nat, a: ClaimAction)
    requires CanClaim(s, p, a) && !a.ClaimRemoveFails? && Held(s, p) && HandsOwn(s, p)
    ensures OnlyAbout(s, DoClaim(s, p, a), p, ClaimKey(s, p, a))
  {
    var s', k := DoClaim(s, p, a), ClaimKey(s, p, a);
    forall n: Name | n.key != k ensures SameFile(s, s', n) {
      ClaimFiles(s, p, a, n);
    }
    forall id | id != k.id ensures SameJob(s, s', id) {
      ClaimJobs(s, p, a, Key(0, id));
    }
    forall l | l != k ensures SameBirth(s, s', l) {
      ClaimJobs(s, p, a, l);
    }
    ClaimProcesses(s, p, a);
  }

  lemma ClaimSelf(s: State, p: nat, a: ClaimAction)
    requires CanClaim(s, p, a) && !a.ClaimRemoveFails? && PcInv(s, p) && Around(s, ClaimKey(s, p, a))
    ensures PcInv(DoClaim(s, p, a), p)
  {
  }

  lemma FileFrame(s: State, s': State, n: Name)
    requires FileInv(s, n) && s'.enqueued == s.enqueued && s'.born == s.born
    requires n in s'.files ==> n in s.files && s'.files[n] == s.files[n]
    ensures FileInv(s', n)
  {
  }

  lemma ClaimRenameFile(s: State, p: nat)
    requires CanClaim(s, p, ClaimRename) && PcInv(s, p)
    ensures FileInv(DoClaim(s, p, ClaimRename), Fin(Running, PcOf(s, p).key))
  {
  }

  lemma ClaimJobFile(s: State, p: nat, a: ClaimAction, d: Status)
    requires CanClaim(s, p, a) && !a.ClaimRemoveFails? && PcInv(s, p) && FileInv(s, Fin(d, ClaimKey(s, p, a)))
    ensures FileInv(DoClaim(s, p, a), Fin(d, ClaimKey(s, p, a)))
  {
    if a.ClaimRename? && d == Running {
      ClaimRenameFile(s, p);
    } else {
      FileFrame(s, DoClaim(s, p, a), Fin(d, ClaimKey(s, p, a)));
    }
  }

  lemma ClaimIdInv(s: State, p: nat, a: ClaimAction)
    requires CanClaim(s, p, a) && !a.ClaimRemoveFails? && PcInv(s, p) && AroundId(s, ClaimKey(s, p, a))
    ensures IdInv(DoClaim(s, p, a), ClaimKey(s, p, a).id) && KeyInv(DoClaim(s, p, a), ClaimKey(s, p, a))
  {
  }

  lemma ClaimRenameLive(s: State, p: nat, a: ClaimAction)
    requires CanClaim(s, p, a) && a.ClaimRename? && PcInv(s, p)
    requires IdInv(s, ClaimKey(s, p, a).id) && LiveInv(s, ClaimKey(s, p, a).id)
    ensures LiveInv(DoClaim(s, p, a), ClaimKey(s, p, a).id)
  {
  }

  lemma ClaimRemoveLive(s: State, p: nat, a: ClaimAction)
    requires CanClaim(s, p, a) && a.ClaimRemove? && PcInv(s, p)
    requires IdInv(s, ClaimKey(s, p, a).id) && LiveInv(s, ClaimKey(s, p, a).id)
    ensures LiveInv(DoClaim(s, p, a), ClaimKey(s, p, a).id)
  {
  }

  lemma LiveFrame(s: State, s': State, id: string)
    requires LiveInv(s, id) && s'.enqueued == s.enqueued && s'.gone == s.gone
    requires id in s.enqueued ==> forall d :: In(s', d, s.enqueued[id].FileKey()) == In(s, d, s.enqueued[id].FileKey())
    ensures LiveInv(s', id)
  {
  }

  lemma ClaimTmpLive(s: State, p: nat, a: ClaimAction)
    requires CanClaim(s, p, a) && (a.ClaimTruncate? || a.ClaimWrite? || a.ClaimFail?) && PcInv(s, p)
    requires IdInv(s, ClaimKey(s, p, a).id) && LiveInv(s, ClaimKey(s, p, a).id)
    ensures LiveInv(DoClaim(s, p, a), ClaimKey(s, p, a).id)
  {
    LiveFrame(s, DoClaim(s, p, a), ClaimKey(s, p, a).id);
  }

  predicate LeavesFiles(a: ClaimAction) {
    || a.Open? || a.LockFree? || a.LockBusy? || a.StatPresent? || a.StatMissing? || a.Read?
    || a.ClaimRemoveFails? || a.HandOut?
  }

  lemma ClaimNoFileLive(s: State, p: nat, a: ClaimAction)
    requires CanClaim(s, p, a) && LeavesFiles(a) && PcInv(s, p)
    requires IdInv(s, ClaimKey(s, p, a).id) && LiveInv(s, ClaimKey(s, p, a).id)
    ensures LiveInv(DoClaim(s, p, a), ClaimKey(s, p, a).id)
  {
  }

  lemma ClaimOwnerInv(s: State, p: nat, a: ClaimAction)
    requires CanClaim(s, p, a) && !a.ClaimRemoveFails? && PcInv(s, p) && AroundId(s, ClaimKey(s, p, a))
    ensures OwnerInv(DoClaim(s, p, a), ClaimKey(s, p, a).id)
  {
  }

  lemma ClaimJobId(s: State, p: nat, a: ClaimAction)
    requires CanClaim(s, p, a) && !a.ClaimRemoveFails? && PcInv(s, p) && AroundId(s, ClaimKey(s, p, a))
    ensures AroundId(DoClaim(s, p, a), ClaimKey(s, p, a))
  {
    ClaimIdInv(s, p, a);
    match a {
      case ClaimRename => ClaimRenameLive(s, p, a);
      case ClaimRemove => ClaimRemoveLive(s, p, a);
      case _ => if LeavesFiles(a) { ClaimNoFileLive(s, p, a); } else { ClaimTmpLive(s, p, a); }
    }
    ClaimOwnerInv(s, p, a);
  }

  /** A scan sees the same of a job whose finished files stay where they are. */
  lemma ScanFrame(s: State, s': State, r: nat)
    requires r in s.scans && ScanInv(s, r) && s'.scans == s.scans && s'.enqueued == s.enqueued && s'.gone == s.gone
    requires s.scans[r].id in s.enqueued ==>
               var k := s.enqueued[s.scans[r].id].FileKey(); forall d :: In(s', d, k) == In(s, d, k)
    ensures ScanInv(s', r)
  {
  }

  lemma ClaimNoFileScan(s: State, p: nat, a: ClaimAction, r: nat)
    requires CanClaim(s, p, a) && LeavesFiles(a) && PcInv(s, p) && AroundId(s, ClaimKey(s, p, a))
    requires ScanInv(s, r) && r in s.scans && s.scans[r].id == ClaimKey(s, p, a).id
    ensures ScanInv(DoClaim(s, p, a), r)
  {
    ScanFrame(s, DoClaim(s, p, a), r);
  }

  lemma ClaimTmpScan(s: State, p: nat, a: ClaimAction, r: nat)
    requires CanClaim(s, p, a) && (a.ClaimTruncate? || a.ClaimWrite? || a.ClaimFail?)
    requires PcInv(s, p) && AroundId(s, ClaimKey(s, p, a))
    requires ScanInv(s, r) && r in s.scans && s.scans[r].id == ClaimKey(s, p, a).id
    ensures ScanInv(DoClaim(s, p, a), r)
  {
    ScanFrame(s, DoClaim(s, p, a), r);
  }

  lemma ClaimMoveScan(s: State, p: nat, a: ClaimAction, r: nat)
    requires CanClaim(s, p, a) && (a.ClaimRename? || a.ClaimRemove?) && PcInv(s, p) && AroundId(s, ClaimKey(s, p, a))
    requires ScanInv(s, r) && r in s.scans && s.scans[r].id == ClaimKey(s, p, a).id
    ensures ScanInv(DoClaim(s, p, a), r)
  {
  }

  lemma ClaimScan(s: State, p: nat, a: ClaimAction, r: nat)
    requires CanClaim(s, p, a) && !a.ClaimRemoveFails? && PcInv(s, p) && AroundId(s, ClaimKey(s, p, a))
    requires ScanInv(s, r) && r in s.scans && s.scans[r].id == ClaimKey(s, p, a).id
    ensures ScanInv(DoClaim(s, p, a), r)
  {
    if LeavesFiles(a) {
      ClaimNoFileScan(s, p, a, r);
    } else if a.ClaimRename? || a.ClaimRemove? {
      ClaimMoveScan(s, p, a, r);
    } else {
      ClaimTmpScan(s, p, a, r);
    }
  }

  lemma MarkFiles(s: State, p: nat, a: MarkAction, n: Name)
    requires CanMark(s, p, a) && n.key != PcKey(PcOf(s, p))
    ensures SameFile(s, DoMark(s, p, a), n)
  {
  }

  /** A status change writes no history. */
  lemma MarkHistory(s: State, p: nat, a: MarkAction)
    requires CanMark(s, p, a)
    ensures var t := DoMark(s, p, a);
            && t.enqueued == s.enqueued && t.born == s.born && t.gone == s.gone
            && t.handed == s.handed && t.owner == s.owner
  {
    match a
    case MarkDone(_, _) =>
    case MarkFailed(_, _, _) =>
    case MarkTruncate =>
    case MarkFail(_) =>
    case _ =>
  }

  lemma MarkJobs(s: State, p: nat, a: MarkAction, l: Key)
    requires CanMark(s, p, a) && l != PcKey(PcOf(s, p))
    ensures SameBirth(s, DoMark(s, p, a), l)
    ensures l.id != PcKey(PcOf(s, p)).id ==> SameJob(s, DoMark(s, p, a), l.id)
  {
    MarkHistory(s, p, a);
  }

  lemma MarkProcesses(s: State, p: nat, a: MarkAction)
    requires CanMark(s, p, a) && Held(s, p)
    ensures SameProcesses(s, DoMark(s, p, a), p)
  {
  }

  lemma MarkEffect(s: State, p: nat, a: MarkAction)
    requires CanMark(s, p, a) && Held(s, p)
    ensures OnlyAbout(s, DoMark(s, p, a), p, PcKey(PcOf(s, p)))
  {
    var s', k := DoMark(s, p, a), PcKey(PcOf(s, p));
    forall n: Name | n.key != k ensures SameFile(s, s', n) {
      MarkFiles(s, p, a, n);
    }
    forall id | id != k.id ensures SameJob(s, s', id) {
      MarkJobs(s, p, a, Key(0, id));
    }
    forall l | l != k ensures SameBirth(s, s', l) {
      MarkJobs(s, p, a, l);
    }
    MarkProcesses(s, p, a);
  }

  lemma MarkSelf(s: State, p: nat, a: MarkAction)
    requires CanMark(s, p, a) && PcInv(s, p) && Around(s, PcKey(PcOf(s, p)))
    ensures PcInv(DoMark(s, p, a), p)
  {
  }

  lemma MarkJobFile(s: State, p: nat, a: MarkAction, d: Status)
    requires CanMark(s, p, a) && PcInv(s, p) && FileInv(s, Fin(d, PcKey(PcOf(s, p))))
    ensures FileInv(DoMark(s, p, a), Fin(d, PcKey(PcOf(s, p))))
  {
  }

  lemma MarkIdInv(s: State, p: nat, a: MarkAction)
    requires CanMark(s, p, a) && PcInv(s, p) && AroundId(s, PcKey(PcOf(s, p)))
    ensures IdInv(DoMark(s, p, a), PcKey(PcOf(s, p)).id) && KeyInv(DoMark(s, p, a), PcKey(PcOf(s, p)))
  {
  }

  lemma MarkLiveInv(s: State, p: nat, a: MarkAction)
    requires CanMark(s, p, a) && PcInv(s, p) && AroundId(s, PcKey(PcOf(s, p)))
    ensures LiveInv(DoMark(s, p, a), PcKey(PcOf(s, p)).id)
  {
    match a
    case MarkRename =>
    case MarkRemove =>
    case MarkFail(_) =>
    case _ =>
  }

  lemma MarkOwnerInv(s: State, p: nat, a: MarkAction)
    requires CanMark(s, p, a) && PcInv(s, p) && AroundId(s, PcKey(PcOf(s, p)))
    ensures OwnerInv(DoMark(s, p, a), PcKey(PcOf(s, p)).id)
  {
  }

  lemma MarkJobId(s: State, p: nat, a: MarkAction)
    requires CanMark(s, p, a) && PcInv(s, p) && AroundId(s, PcKey(PcOf(s, p)))
    ensures AroundId(DoMark(s, p, a), PcKey(PcOf(s, p)))
  {
    MarkIdInv(s, p, a);
    MarkLiveInv(s, p, a);
    MarkOwnerInv(s, p, a);
  }

  lemma MarkMoveScan(s: State, p: nat, a: MarkAction, r: nat)
    requires CanMark(s, p, a) && (a.MarkRename? || a.MarkRemove?) && PcInv(s, p) && AroundId(s, PcKey(PcOf(s, p)))
    requires ScanInv(s, r) && r in s.scans && s.scans[r].id == PcKey(PcOf(s, p)).id
    ensures ScanInv(DoMark(s, p, a), r)
  {
  }

  lemma MarkStayScan(s: State, p: nat, a: MarkAction, r: nat)
    requires CanMark(s, p, a) && !a.MarkRename? && !a.MarkRemove? && PcInv(s, p) && AroundId(s, PcKey(PcOf(s, p)))
    requires ScanInv(s, r) && r in s.scans && s.scans[r].id == PcKey(PcOf(s, p)).id
    ensures ScanInv(DoMark(s, p, a), r)
  {
    ScanFrame(s, DoMark(s, p, a), r);
  }

  lemma MarkScan(s: State, p: nat, a: MarkAction, r: nat)
    requires CanMark(s, p, a) && PcInv(s, p) && AroundId(s, PcKey(PcOf(s, p)))
    requires ScanInv(s, r) && r in s.scans && s.scans[r].id == PcKey(PcOf(s, p)).id
    ensures ScanInv(DoMark(s, p, a), r)
  {
    if a.MarkRename? || a.MarkRemove? {
      MarkMoveScan(s, p, a, r);
    } else {
      MarkStayScan(s, p, a, r);
    }
  }

  lemma CrashFiles(s: State, p: nat, n: Name)
    requires n.key != PcKey(PcOf(s, p))
    ensures SameFile(s, DoCrash(s, p), n)
  {
  }

  lemma CrashJobs(s: State, p: nat, l: Key)
    requires l != PcKey(PcOf(s, p))
    ensures SameBirth(s, DoCrash(s, p), l)
    ensures l.id != PcKey(PcOf(s, p)).id ==> SameJob(s, DoCrash(s, p), l.id)
  {
  }

  lemma CrashProcesses(s: State, p: nat)
    requires Held(s, p)
    ensures SameProcesses(s, DoCrash(s, p), p)
  {
  }

  lemma CrashEffect(s: State, p: nat)
    requires Held(s, p)
    ensures OnlyAbout(s, DoCrash(s, p), p, PcKey(PcOf(s, p)))
  {
    var s', k := DoCrash(s, p), PcKey(PcOf(s, p));
    forall n: Name | n.key != k ensures SameFile(s, s', n) {
      CrashFiles(s, p, n);
    }
    forall id | id != k.id ensures SameJob(s, s', id) {
      CrashJobs(s, p, Key(0, id));
    }
    forall l | l != k ensures SameBirth(s, s', l) {
      CrashJobs(s, p, l);
    }
    CrashProcesses(s, p);
  }

  lemma CrashSelf(s: State, p: nat)
    requires PcInv(s, p) && Around(s, PcKey(PcOf(s, p)))
    ensures PcInv(DoCrash(s, p), p)
  {
  }

  lemma CrashJobFile(s: State, p: nat, d: Status)
    requires PcInv(s, p) && FileInv(s, Fin(d, PcKey(PcOf(s, p))))
    ensures FileInv(DoCrash(s, p), Fin(d, PcKey(PcOf(s, p))))
  {
  }

  lemma CrashJobId(s: State, p: nat)
    requires PcInv(s, p) && AroundId(s, PcKey(PcOf(s, p)))
    ensures AroundId(DoCrash(s, p), PcKey(PcOf(s, p)))
  {
  }

  lemma CrashScan(s: State, p: nat, r: nat)
    requires PcInv(s, p) && AroundId(s, PcKey(PcOf(s, p)))
    requires ScanInv(s, r) && r in s.scans && s.scans[r].id == PcKey(PcOf(s, p)).id
    ensures ScanInv(DoCrash(s, p), r)
  {
  }

  lemma KnowJob(s: State, k: Key)
    requires Inv(s)
    ensures Around(s, k)
  {
    assert IdInv(s, k.id) && KeyInv(s, k) && LiveInv(s, k.id) && OwnerInv(s, k.id);
  }

  lemma Know(s: State, p: nat, q: nat, k: Key)
    requires Inv(s)
    ensures PcInv(s, p) && PcInv(s, q) && Held(s, p) && Held(s, q) && HandsOwn(s, p) && Exclusive(s, p, q)
    ensures Around(s, k) && Around(s, PcKey(PcOf(s, p))) && Around(s, PcKey(PcOf(s, q)))
  {
    assert PcInv(s, p) && PcInv(s, q) && Apart(s, p, q);
    LockHeld(s, p);
    LockHeld(s, q);
    KnowJob(s, k);
    KnowJob(s, PcKey(PcOf(s, p)));
    KnowJob(s, PcKey(PcOf(s, q)));
    MutualExclusion(s, p, q);
  }

  lemma KnowHeld(s: State, p: nat)
    requires Inv(s)
    ensures Held(s, p)
  {
    assert PcInv(s, p);
    LockHeld(s, p);
  }

  /** No second file name ever carries the id of an enqueued job. */
  lemma SameIdOtherKey(s: State, s': State, p: nat, k: Key, l: Key)
    requires OnlyAbout(s, s', p, k) && Around(s, l) && Around(s, k) && Around(s', k) && Grows(s, s', k)
    requires l.id == k.id && l != k
    ensures Around(s', l)
  {
    assert SameBirth(s, s', l);
    forall d ensures FileInv(s', Fin(d, l)) {
      assert SameFile(s, s', Fin(d, l)) && FileInv(s, Fin(d, l));
    }
  }

  lemma AllAround(s: State)
    requires forall k :: Around(s, k)
    ensures forall n :: FileInv(s, n)
    ensures forall id :: IdInv(s, id) && LiveInv(s, id) && OwnerInv(s, id)
    ensures forall k :: KeyInv(s, k)
  {
    forall n ensures FileInv(s, n) {
      assert Around(s, n.key);
      assert !n.tmp ==> n == Fin(n.dir, n.key);
    }
    forall id ensures IdInv(s, id) && LiveInv(s, id) && OwnerInv(s, id) {
      assert Around(s, Key(0, id));
    }
    forall k ensures KeyInv(s, k) {
      assert Around(s, k);
    }
  }

  /** A step of p about job k keeps the invariant, once it is known to keep p's and k's part of it. */
  lemma Preserved(s: State, s': State, p: nat, k: Key)
    requires Inv(s) && OnlyAbout(s, s', p, k) && Grows(s, s', k) && NotBusyElsewhere(s, p, k)
    requires PcInv(s', p) && Around(s', k)
    requires forall q | q != p && !Settled(PcOf(s, q)) :: PcKey(PcOf(s, q)).id != k.id
    requires PcOf(s', p).Enqueuing? ==> PcKey(PcOf(s', p)) == k
    requires forall r | r in s.scans && s.scans[r].id == k.id :: ScanInv(s', r)
    ensures Inv(s')
  {
    forall q ensures PcInv(s', q) {
      if q != p {
        Know(s, p, q, k);
        OthersUndisturbed(s, s', p, k, q);
        Frame(s, s', q);
      }
    }
    forall q, r ensures Apart(s', q, r) {
      assert Apart(s, q, r);
    }
    forall l ensures Around(s', l) {
      KnowJob(s, l);
      KnowJob(s, k);
      if l.id != k.id {
        OtherJobs(s, s', p, k, l);
      } else if l != k {
        SameIdOtherKey(s, s', p, k, l);
      }
    }
    AllAround(s');
    forall r ensures ScanInv(s', r) {
      assert ScanInv(s, r);
      if r in s.scans && s.scans[r].id != k.id {
        assert IdInv(s, s.scans[r].id);
        OtherScans(s, s', p, k, r);
      }
    }
  }

  lemma UsedId(s: State, q: nat)
    requires PcInv(s, q) && Around(s, PcKey(PcOf(s, q))) && !PcOf(s, q).Idle?
    ensures PcKey(PcOf(s, q)).id in s.used
  {
  }

  lemma EnqPreserves(s: State, p: nat, a: EnqAction)
    requires Inv(s) && CanEnq(s, p, a)
    ensures Inv(DoEnq(s, p, a))
  {
    var s', k := DoEnq(s, p, a), EnqKey(s, p, a);
    Know(s, p, p, k);
    EnqEffect(s, p, a);
    EnqSelf(s, p, a);
    EnqJobId(s, p, a);
    forall d ensures FileInv(s', Fin(d, k)) {
      EnqJobFile(s, p, a, d);
    }
    forall r | r in s.scans && s.scans[r].id == k.id ensures ScanInv(s', r) {
      assert ScanInv(s, r);
      EnqScan(s, p, a, r);
    }
    forall q | q != p && !Settled(PcOf(s, q)) ensures PcKey(PcOf(s, q)).id != k.id {
      Know(s, p, q, k);
      if a.Start? {
        UsedId(s, q);
      }
    }
    Preserved(s, s', p, k);
  }

  lemma MarkPreserves(s: State, p: nat, a: MarkAction)
    requires Inv(s) && CanMark(s, p, a)
    ensures Inv(DoMark(s, p, a))
  {
    var s', k := DoMark(s, p, a), PcKey(PcOf(s, p));
    Know(s, p, p, k);
    MarkEffect(s, p, a);
    MarkSelf(s, p, a);
    MarkJobId(s, p, a);
    forall d ensures FileInv(s', Fin(d, k)) {
      MarkJobFile(s, p, a, d);
    }
    forall r | r in s.scans && s.scans[r].id == k.id ensures ScanInv(s', r) {
      assert ScanInv(s, r);
      MarkScan(s, p, a, r);
    }
    forall q | q != p && !Settled(PcOf(s, q)) ensures PcKey(PcOf(s, q)).id != k.id {
      Know(s, p, q, k);
    }
    Preserved(s, s', p, k);
  }

  predicate Quiet(a: ClaimAction) {
    a.Open? || a.LockFree? || a.LockBusy? || a.StatPresent? || a.StatMissing?
  }

  lemma ClaimPreserves(s: State, p: nat, a: ClaimAction)
    requires Inv(s) && CanClaim(s, p, a) && !a.ClaimRemoveFails? && !Quiet(a)
    ensures Inv(DoClaim(s, p, a))
  {
    var s', k := DoClaim(s, p, a), ClaimKey(s, p, a);
    Know(s, p, p, k);
    ClaimEffect(s, p, a);
    ClaimSelf(s, p, a);
    ClaimJobId(s, p, a);
    forall d ensures FileInv(s', Fin(d, k)) {
      ClaimJobFile(s, p, a, d);
    }
    forall r | r in s.scans && s.scans[r].id == k.id ensures ScanInv(s', r) {
      assert ScanInv(s, r);
      ClaimScan(s, p, a, r);
    }
    forall q | q != p && !Settled(PcOf(s, q)) ensures PcKey(PcOf(s, q)).id != k.id {
      Know(s, p, q, k);
    }
    Preserved(s, s', p, k);
  }

  /** Only p's program counter and locks differ. */
  ghost predicate Still(s: State, s': State, p: nat) {
    && s'.files == s.files && s'.enqueued == s.enqueued && s'.born == s.born
    && s'.gone == s.gone && s'.handed == s.handed && s'.owner == s.owner && s'.used == s.used
    && SameProcesses(s, s', p)
    && Settled(PcOf(s, p)) && !PcOf(s', p).Enqueuing?
  }

  lemma StillScan(s: State, s': State, p: nat, r: nat)
    requires Still(s, s', p) && ScanInv(s, r)
    ensures ScanInv(s', r)
  {
  }

  lemma StillAround(s: State, s': State, p: nat, k: Key)
    requires Still(s, s', p) && Around(s, k)
    ensures Around(s', k)
  {
    forall d ensures FileInv(s', Fin(d, k)) {
      assert FileInv(s, Fin(d, k));
    }
  }

  lemma StillKeeps(s: State, s': State, p: nat)
    requires Inv(s) && Still(s, s', p) && PcInv(s', p)
    ensures Inv(s')
  {
    forall q ensures PcInv(s', q) {
      if q != p {
        Know(s, p, q, Key(0, ""));
        Frame(s, s', q);
      }
    }
    forall q, r ensures Apart(s', q, r) {
      assert Apart(s, q, r);
    }
    forall k ensures Around(s', k) {
      KnowJob(s, k);
      StillAround(s, s', p, k);
    }
    AllAround(s');
    forall r ensures ScanInv(s', r) {
      assert ScanInv(s, r);
      StillScan(s, s', p, r);
    }
  }

  lemma QuietStill(s: State, p: nat, a: ClaimAction)
    requires CanClaim(s, p, a) && Quiet(a) && Held(s, p)
    ensures Still(s, DoClaim(s, p, a), p)
  {
  }

  lemma QuietPreserves(s: State, p: nat, a: ClaimAction)
    requires Inv(s) && CanClaim(s, p, a) && Quiet(a)
    ensures Inv(DoClaim(s, p, a))
  {
    var k := ClaimKey(s, p, a);
    Know(s, p, p, k);
    assert a.Open? ==> FileInv(s, Fin(Pending, k));
    ClaimSelf(s, p, a);
    QuietStill(s, p, a);
    StillKeeps(s, DoClaim(s, p, a), p);
  }

  lemma CrashStill(s: State, p: nat)
    requires Held(s, p) && Settled(PcOf(s, p))
    ensures Still(s, DoCrash(s, p), p)
  {
  }

  lemma CrashIsIdle(s: State, p: nat)
    ensures PcOf(DoCrash(s, p), p).Idle? && Grows(s, DoCrash(s, p), PcKey(PcOf(s, p)))
  {
  }

  lemma CrashAround(s: State, p: nat)
    requires Inv(s) && !Settled(PcOf(s, p))
    ensures Around(DoCrash(s, p), PcKey(PcOf(s, p)))
  {
    var s', k := DoCrash(s, p), PcKey(PcOf(s, p));
    Know(s, p, p, k);
    CrashJobId(s, p);
    forall d ensures FileInv(s', Fin(d, k)) {
      CrashJobFile(s, p, d);
    }
  }

  lemma CrashScans(s: State, p: nat)
    requires Inv(s) && !Settled(PcOf(s, p))
    ensures forall r | r in s.scans && s.scans[r].id == PcKey(PcOf(s, p)).id :: ScanInv(DoCrash(s, p), r)
  {
    Know(s, p, p, PcKey(PcOf(s, p)));
    forall r | r in s.scans && s.scans[r].id == PcKey(PcOf(s, p)).id ensures ScanInv(DoCrash(s, p), r) {
      assert ScanInv(s, r);
      CrashScan(s, p, r);
    }
  }

  lemma NobodyElse(s: State, p: nat)
    requires Inv(s) && !Settled(PcOf(s, p))
    ensures forall q | q != p && !Settled(PcOf(s, q)) :: PcKey(PcOf(s, q)).id != PcKey(PcOf(s, p)).id
  {
    forall q | q != p && !Settled(PcOf(s, q)) ensures PcKey(PcOf(s, q)).id != PcKey(PcOf(s, p)).id {
      Know(s, p, q, PcKey(PcOf(s, p)));
    }
  }

  /** The preservation rule for a step that leaves p idle. */
  lemma IdleNow(s: State, s': State, p: nat, k: Key)
    requires Inv(s) && OnlyAbout(s, s', p, k) && Grows(s, s', k) && k == PcKey(PcOf(s, p))
    requires PcOf(s', p).Idle? && Around(s', k)
    requires forall q | q != p && !Settled(PcOf(s, q)) :: PcKey(PcOf(s, q)).id != k.id
    requires forall r | r in s.scans && s.scans[r].id == k.id :: ScanInv(s', r)
    ensures Inv(s')
  {
    Preserved(s, s', p, k);
  }

  lemma CrashBusy(s: State, p: nat)
    requires Inv(s) && !Settled(PcOf(s, p))
    ensures Inv(DoCrash(s, p))
  {
    KnowHeld(s, p);
    CrashIsIdle(s, p);
    CrashEffect(s, p);
    CrashAround(s, p);
    CrashScans(s, p);
    NobodyElse(s, p);
    IdleNow(s, DoCrash(s, p), p, PcKey(PcOf(s, p)));
  }

  lemma CrashPreserves(s: State, p: nat)
    requires Inv(s)
    ensures Inv(DoCrash(s, p))
  {
    Know(s, p, p, PcKey(PcOf(s, p)));
    CrashSelf(s, p);
    if Settled(PcOf(s, p)) {
      CrashStill(s, p);
      StillKeeps(s, DoCrash(s, p), p);
    } else {
      CrashBusy(s, p);
    }
  }

  /** A scan's job is either the removed one, and no longer live, or has all its files. */
  lemma UnlinkScan(s: State, d: Status, k: Key, r: nat)
    requires In(s, d, k) && ScanInv(s, r) && r in s.scans && IdInv(s, s.scans[r].id)
    ensures ScanInv(Apply(s, Unlink(d, k)), r)
  {
  }

  lemma UnlinkUndisturbed(s: State, d: Status, k: Key, q: nat)
    requires In(s, d, k) && PcInv(s, q)
    ensures Undisturbed(s, Apply(s, Unlink(d, k)), q)
  {
  }

  lemma UnlinkAround(s: State, d: Status, k: Key, l: Key)
    requires In(s, d, k) && Around(s, l) && KeyInv(s, k) && FileInv(s, Fin(d, k))
    ensures Around(Apply(s, Unlink(d, k)), l)
  {
    forall e ensures FileInv(Apply(s, Unlink(d, k)), Fin(e, l)) {
      assert FileInv(s, Fin(e, l));
    }
  }

  lemma UnlinkPreserves(s: State, d: Status, k: Key)
    requires Inv(s) && In(s, d, k)
    ensures Inv(Apply(s, Unlink(d, k)))
  {
    var s' := Apply(s, Unlink(d, k));
    forall q ensures PcInv(s', q) {
      assert PcInv(s, q);
      UnlinkUndisturbed(s, d, k, q);
      Frame(s, s', q);
    }
    forall q, r ensures Apart(s', q, r) {
      assert Apart(s, q, r);
    }
    forall l ensures Around(s', l) {
      KnowJob(s, l);
      KnowJob(s, k);
      assert FileInv(s, Fin(d, k));
      UnlinkAround(s, d, k, l);
    }
    AllAround(s');
    forall r ensures ScanInv(s', r) {
      assert ScanInv(s, r);
      if r in s.scans {
        assert IdInv(s, s.scans[r].id);
        UnlinkScan(s, d, k, r);
      }
    }
  }

  lemma ScanUndisturbed(s: State, r: nat, a: ScanAction, q: nat)
    requires CanScan(s, r, a) && PcInv(s, q)
    ensures Undisturbed(s, DoScan(s, r, a), q)
  {
  }

  lemma ScanAround(s: State, r: nat, a: ScanAction, k: Key)
    requires CanScan(s, r, a) && Around(s, k)
    ensures Around(DoScan(s, r, a), k)
  {
    forall d ensures FileInv(DoScan(s, r, a), Fin(d, k)) {
      assert FileInv(s, Fin(d, k));
    }
  }

  lemma ScanBegins(s: State, r: nat, id: string)
    requires LiveInv(s, id)
    ensures ScanInv(DoScan(s, r, ScanStart(id)), r)
  {
  }

  /** A directory that lists no file of the job is behind the scan. */
  lemma ScanMisses(s: State, r: nat)
    requires CanScan(s, r, Miss) && ScanInv(s, r) && AroundId(s, Key(0, s.scans[r].id))
    ensures ScanInv(DoScan(s, r, Miss), r)
  {
    var sc := s.scans[r];
    if sc.at < 4 && sc.id in s.enqueued {
      var n := Fin(StatusAt(sc.at), s.enqueued[sc.id].FileKey());
      assert n.key.id == sc.id;
      assert n !in s.files;
    }
  }

  lemma ScanOwn(s: State, r: nat, a: ScanAction)
    requires CanScan(s, r, a) && ScanInv(s, r) && !a.ScanStart?
    requires AroundId(s, Key(0, s.scans[r].id))
    requires a.ScanRead? ==> FileInv(s, Fin(s.scans[r].dir, s.scans[r].key))
    requires a.Hit? ==> FileInv(s, Fin(StatusAt(s.scans[r].at), a.key))
    ensures ScanInv(DoScan(s, r, a), r)
  {
    if a.Miss? {
      ScanMisses(s, r);
    }
  }

  lemma ScanBystander(s: State, r: nat, a: ScanAction, t: nat)
    requires CanScan(s, r, a) && ScanInv(s, t) && t != r
    ensures ScanInv(DoScan(s, r, a), t)
  {
  }

  lemma ScanItself(s: State, r: nat, a: ScanAction)
    requires Inv(s) && CanScan(s, r, a)
    ensures ScanInv(DoScan(s, r, a), r)
  {
    if a.ScanStart? {
      KnowJob(s, Key(0, a.id));
      ScanBegins(s, r, a.id);
    } else {
      assert ScanInv(s, r);
      KnowJob(s, Key(0, s.scans[r].id));
      assert a.ScanRead? ==> FileInv(s, Fin(s.scans[r].dir, s.scans[r].key));
      assert a.Hit? ==> FileInv(s, Fin(StatusAt(s.scans[r].at), a.key));
      ScanOwn(s, r, a);
    }
  }

  lemma ScanPreserves(s: State, r: nat, a: ScanAction)
    requires Inv(s) && CanScan(s, r, a)
    ensures Inv(DoScan(s, r, a))
  {
    var s' := DoScan(s, r, a);
    forall q ensures PcInv(s', q) {
      assert PcInv(s, q);
      ScanUndisturbed(s, r, a, q);
      Frame(s, s', q);
    }
    forall q, t ensures Apart(s', q, t) {
      assert Apart(s, q, t);
    }
    forall k ensures Around(s', k) {
      KnowJob(s, k);
      ScanAround(s, r, a, k);
    }
    AllAround(s');
    forall t ensures ScanInv(s', t) {
      assert ScanInv(s, t);
      if t == r {
        ScanItself(s, r, a);
      } else {
        ScanBystander(s, r, a, t);
      }
    }
  }

  lemma StepPreserves(s: State, st: Step)
    requires Inv(s) && Enabled(s, st) && !(st.Claim? && st.c.ClaimRemoveFails?)
    ensures Inv(Apply(s, st))
  {
    match st
    case Enq(p, e) => EnqPreserves(s, p, e);
    case Claim(p, c) => if Quiet(c) { QuietPreserves(s, p, c); } else { ClaimPreserves(s, p, c); }
    case Mark(p, m) => MarkPreserves(s, p, m);
    case Crash(p) => CrashPreserves(s, p);
    case Unlink(d, k) => UnlinkPreserves(s, d, k);
    case Scan(r, a) => ScanPreserves(s, r, a);
  }

  lemma {:induction false} Invariant(states: seq<State>, steps: seq<Step>, i: nat)
    requires Run(states, steps) && RemovesSucceed(steps) && i <= |steps|
    ensures Inv(states[i])
  {
    if i > 0 {
      Invariant(states, steps, i - 1);
      StepPreserves(states[i - 1], steps[i - 1]);
    }
  }
}

/**
 The file-backed queue at file-system granularity: any number of processes (enqueuers and
 workers), any number of GetJob scans, deletions and cleanups interleave, every system call
 being one step, and a process may crash, or a call of its may fail, between any two steps.
 */
module QueueProtocol {
  import opened Job

  // ---------------------------------------------------------------- state

  datatype Name = Name(dir: Status, key: Key, tmp: bool)
  datatype Content = Partial | Whole(job: Job)
  datatype File = File(ino: nat, content: Content)

  /** How far a "write temporary file, rename, remove source" sequence has come. */
  datatype Phase = Fresh | Truncated | Written | Renamed

  datatype Pc =
    | Idle
    | Enqueuing(job: Job, phase: Phase)
    | Opened(key: Key, ino: nat)
    | Locked(key: Key, ino: nat)
    | Stated(key: Key, ino: nat)
    | Claiming(key: Key, ino: nat, job: Job, phase: Phase)
    | Claimed(key: Key, ino: nat, job: Job)
    | Holding(job: Job)
    | Marking(to: Status, job: Job, phase: Phase)

  /** A GetJob call; `sure` records whether the job had been enqueued when the call began. */
  datatype Scan =
    | Scanning(id: string, sure: bool, at: nat)
    | Reading(id: string, sure: bool, key: Key, dir: Status)
    | Found(id: string, dir: Status, job: Job)
    | ReadError(id: string)
    | NotFound(id: string, sure: bool)

  /**
   files, nextIno and locks are the file system; pcs and scans are the processes; the rest is
   history: ids ever generated, jobs successfully enqueued, the inode each pending file was
   born with, ids deleted or cleaned, how often and to whom a job was handed out, and the
   processes that crashed or whose status change failed or could not remove the running file.
   */
  datatype State = State(
    files: map<Name, File>,
    nextIno: nat,
    locks: map<nat, nat>,
    pcs: map<nat, Pc>,
    scans: map<nat, Scan>,
    used: set<string>,
    enqueued: map<string, Job>,
    born: map<Key, nat>,
    gone: set<string>,
    handed: multiset<string>,
    owner: map<string, nat>,
    broken: set<nat>)

  const INIT := State(map[], 0, map[], map[], map[], {}, map[], map[], {}, multiset{}, map[], {})

  function Fin(d: Status, k: Key): Name { Name(d, k, false) }
  function Tmp(d: Status, k: Key): Name { Name(d, k, true) }

  predicate In(s: State, d: Status, k: Key) { Fin(d, k) in s.files }

  function PcOf(s: State, p: nat): Pc {
    if p in s.pcs then s.pcs[p] else Idle
  }

  function SetPc(s: State, p: nat, pc: Pc): State {
    s.(pcs := s.pcs[p := pc])
  }

  function Unlock(s: State, ino: nat): State {
    s.(locks := s.locks - {ino})
  }

  /** os.WriteFile's open(O_CREATE|O_TRUNC): an existing file keeps its inode. */
  function Truncate(s: State, n: Name): State {
    if n in s.files then s.(files := s.files[n := File(s.files[n].ino, Partial)])
    else s.(files := s.files[n := File(s.nextIno, Partial)], nextIno := s.nextIno + 1)
  }

  function Fill(s: State, n: Name, job: Job): State
    requires n in s.files
  {
    s.(files := s.files[n := File(s.files[n].ino, Whole(job))])
  }

  function Rename(s: State, from: Name, to: Name): State
    requires from in s.files
  {
    s.(files := (s.files - {from})[to := s.files[from]])
  }

  function Remove(s: State, n: Name): State {
    s.(files := s.files - {n})
  }

  // ---------------------------------------------------------------- steps

  /** The system calls of Enqueue (writeJob). */
  datatype EnqAction = Start(job: Job) | EnqTruncate | EnqWrite | EnqRename | EnqFail(cleanup: bool)

  /** The system calls of tryClaimJob, with those of the moveJob it makes. */
  datatype ClaimAction =
    | Open(key: Key) | LockFree | LockBusy | StatPresent | StatMissing | Read(now: int)
    | ClaimTruncate | ClaimWrite | ClaimRename | ClaimRemove | ClaimRemoveFails | ClaimFail(cleanup: bool) | HandOut

  /** The system calls of MarkDone and MarkFailed. */
  datatype MarkAction =
    | MarkDone(now: int, code: int) | MarkFailed(now: int, code: int, msg: string)
    | MarkTruncate | MarkWrite | MarkRename | MarkRemove | MarkRemoveFails | MarkFail(cleanup: bool)

  /** The system calls of GetJob: ReadDir, with or without the job in the listing, and ReadFile. */
  datatype ScanAction = ScanStart(id: string) | Hit(key: Key) | Miss | ScanRead

  /** Unlink is the removal of a job file by DeleteJob or by the cleanup. */
  datatype Step =
    | Enq(p: nat, e: EnqAction)
    | Claim(p: nat, c: ClaimAction)
    | Mark(p: nat, m: MarkAction)
    | Crash(p: nat)
    | Unlink(dir: Status, key: Key)
    | Scan(r: nat, a: ScanAction)

  predicate HasLock(pc: Pc) {
    pc.Locked? || pc.Stated? || pc.Claiming? || pc.Claimed?
  }

  predicate NoneListed(s: State, d: Status, id: string) {
    forall n | n in s.files :: n.dir == d && !n.tmp ==> n.key.id != id
  }

  function Discard(s: State, n: Name, cleanup: bool): State {
    if cleanup then Remove(s, n) else s
  }

  predicate CanEnq(s: State, p: nat, e: EnqAction) {
    match e
    case Start(job) =>
      PcOf(s, p).Idle? && job.id !in s.used && IsNew(job)
    case EnqTruncate => PcOf(s, p).Enqueuing? && PcOf(s, p).phase.Fresh?
    case EnqWrite =>
      PcOf(s, p).Enqueuing? && PcOf(s, p).phase.Truncated? && Tmp(Pending, PcOf(s, p).job.FileKey()) in s.files
    case EnqRename =>
      PcOf(s, p).Enqueuing? && PcOf(s, p).phase.Written? && Tmp(Pending, PcOf(s, p).job.FileKey()) in s.files
    case EnqFail(_) => PcOf(s, p).Enqueuing?
  }

  function DoEnq(s: State, p: nat, e: EnqAction): State
    requires CanEnq(s, p, e)
  {
    match e
    case Start(job) => SetPc(s, p, Enqueuing(job, Fresh)).(used := s.used + {job.id})
    case EnqTruncate =>
      var job := PcOf(s, p).job;
      SetPc(Truncate(s, Tmp(Pending, job.FileKey())), p, Enqueuing(job, Truncated))
    case EnqWrite =>
      var job := PcOf(s, p).job;
      SetPc(Fill(s, Tmp(Pending, job.FileKey()), job), p, Enqueuing(job, Written))
    case EnqRename =>
      var job := PcOf(s, p).job;
      var ino := s.files[Tmp(Pending, job.FileKey())].ino;
      SetPc(Rename(s, Tmp(Pending, job.FileKey()), Fin(Pending, job.FileKey())), p, Idle)
      .(enqueued := s.enqueued[job.id := job], born := s.born[job.FileKey() := ino])
    case EnqFail(cleanup) =>
      SetPc(Discard(s, Tmp(Pending, PcOf(s, p).job.FileKey()), cleanup), p, Idle)
  }

  predicate CanClaim(s: State, p: nat, c: ClaimAction) {
    match c
    case Open(key) => PcOf(s, p).Idle? && In(s, Pending, key)
    case LockFree => PcOf(s, p).Opened? && PcOf(s, p).ino !in s.locks
    case LockBusy => PcOf(s, p).Opened?
    case StatPresent => PcOf(s, p).Locked? && In(s, Pending, PcOf(s, p).key)
    case StatMissing => PcOf(s, p).Locked? && !In(s, Pending, PcOf(s, p).key)
    case Read(_) =>
      PcOf(s, p).Stated? && In(s, Pending, PcOf(s, p).key) && s.files[Fin(Pending, PcOf(s, p).key)].content.Whole?
    case ClaimTruncate => PcOf(s, p).Claiming? && PcOf(s, p).phase.Fresh?
    case ClaimWrite => PcOf(s, p).Claiming? && PcOf(s, p).phase.Truncated? && Tmp(Running, PcOf(s, p).key) in s.files
    case ClaimRename => PcOf(s, p).Claiming? && PcOf(s, p).phase.Written? && Tmp(Running, PcOf(s, p).key) in s.files
    case ClaimRemove => PcOf(s, p).Claiming? && PcOf(s, p).phase.Renamed?
    case ClaimRemoveFails => PcOf(s, p).Claiming? && PcOf(s, p).phase.Renamed?
    case ClaimFail(_) => PcOf(s, p).Stated? || (PcOf(s, p).Claiming? && !PcOf(s, p).phase.Renamed?)
    case HandOut => PcOf(s, p).Claimed?
  }

  function DoClaim(s: State, p: nat, c: ClaimAction): State
    requires CanClaim(s, p, c)
  {
    var pc := PcOf(s, p);
    match c
    case Open(key) => SetPc(s, p, Opened(key, s.files[Fin(Pending, key)].ino))
    case LockFree => SetPc(s, p, Locked(pc.key, pc.ino)).(locks := s.locks[pc.ino := p])
    case LockBusy => SetPc(s, p, Idle)
    case StatPresent => SetPc(s, p, Stated(pc.key, pc.ino))
    case StatMissing => Unlock(SetPc(s, p, Idle), pc.ino)
    case Read(now) =>
      SetPc(s, p, Claiming(pc.key, pc.ino, Started(s.files[Fin(Pending, pc.key)].content.job, now), Fresh))
    case ClaimTruncate =>
      SetPc(Truncate(s, Tmp(Running, pc.key)), p, Claiming(pc.key, pc.ino, pc.job, Truncated))
    case ClaimWrite =>
      SetPc(Fill(s, Tmp(Running, pc.key), pc.job), p, Claiming(pc.key, pc.ino, pc.job, Written))
    case ClaimRename =>
      SetPc(Rename(s, Tmp(Running, pc.key), Fin(Running, pc.key)), p, Claiming(pc.key, pc.ino, pc.job, Renamed))
    case ClaimRemove => SetPc(Remove(s, Fin(Pending, pc.key)), p, Claimed(pc.key, pc.ino, pc.job))
    case ClaimRemoveFails => SetPc(s, p, Claimed(pc.key, pc.ino, pc.job))
    case ClaimFail(cleanup) =>
      Unlock(SetPc(Discard(s, Tmp(Running, pc.key), cleanup && pc.Claiming?), p, Idle), pc.ino)
    case HandOut =>
      Unlock(SetPc(s, p, Holding(pc.job)), pc.ino)
      .(handed := s.handed + multiset{pc.job.id}, owner := s.owner[pc.job.id := p])
  }

  predicate CanMark(s: State, p: nat, m: MarkAction) {
    match m
    case MarkDone(_, _) => PcOf(s, p).Holding?
    case MarkFailed(_, _, _) => PcOf(s, p).Holding?
    case MarkTruncate => PcOf(s, p).Marking? && PcOf(s, p).phase.Fresh?
    case MarkWrite =>
      PcOf(s, p).Marking? && PcOf(s, p).phase.Truncated? && Tmp(PcOf(s, p).to, PcOf(s, p).job.FileKey()) in s.files
    case MarkRename =>
      PcOf(s, p).Marking? && PcOf(s, p).phase.Written? && Tmp(PcOf(s, p).to, PcOf(s, p).job.FileKey()) in s.files
    case MarkRemove => PcOf(s, p).Marking? && PcOf(s, p).phase.Renamed?
    case MarkRemoveFails => PcOf(s, p).Marking? && PcOf(s, p).phase.Renamed?
    case MarkFail(_) => PcOf(s, p).Marking? && !PcOf(s, p).phase.Renamed?
  }

  function DoMark(s: State, p: nat, m: MarkAction): State
    requires CanMark(s, p, m)
  {
    var pc := PcOf(s, p);
    match m
    case MarkDone(now, code) => SetPc(s, p, Marking(Done, Succeeded(pc.job, now, code), Fresh))
    case MarkFailed(now, code, msg) => SetPc(s, p, Marking(Failed, FailedWith(pc.job, now, code, msg), Fresh))
    case MarkTruncate => SetPc(Truncate(s, Tmp(pc.to, pc.job.FileKey())), p, Marking(pc.to, pc.job, Truncated))
    case MarkWrite => SetPc(Fill(s, Tmp(pc.to, pc.job.FileKey()), pc.job), p, Marking(pc.to, pc.job, Written))
    case MarkRename =>
      SetPc(Rename(s, Tmp(pc.to, pc.job.FileKey()), Fin(pc.to, pc.job.FileKey())), p, Marking(pc.to, pc.job, Renamed))
    case MarkRemove => SetPc(Remove(s, Fin(Running, pc.job.FileKey())), p, Idle)
    case MarkRemoveFails => SetPc(s, p, Idle).(broken := s.broken + {p})
    case MarkFail(cleanup) =>
      SetPc(Discard(s, Tmp(pc.to, pc.job.FileKey()), cleanup), p, Idle).(broken := s.broken + {p})
  }

  function DoCrash(s: State, p: nat): State {
    var pc := PcOf(s, p);
    var s1 := SetPc(s, p, Idle).(broken := s.broken + {p});
    if HasLock(pc) then Unlock(s1, pc.ino) else s1
  }

  predicate CanScan(s: State, r: nat, a: ScanAction) {
    match a
    case ScanStart(_) => true
    case Hit(key) =>
      r in s.scans && s.scans[r].Scanning? && s.scans[r].at < 4 && key.id == s.scans[r].id &&
      In(s, StatusAt(s.scans[r].at), key)
    case Miss =>
      r in s.scans && s.scans[r].Scanning? && s.scans[r].at <= 4 &&
      (s.scans[r].at < 4 ==> NoneListed(s, StatusAt(s.scans[r].at), s.scans[r].id))
    case ScanRead => r in s.scans && s.scans[r].Reading?
  }

  function DoScan(s: State, r: nat, a: ScanAction): State
    requires CanScan(s, r, a)
  {
    match a
    case ScanStart(id) => s.(scans := s.scans[r := Scanning(id, id in s.enqueued, 0)])
    case Hit(key) =>
      var sc := s.scans[r];
      s.(scans := s.scans[r := Reading(sc.id, sc.sure, key, StatusAt(sc.at))])
    case Miss =>
      var sc := s.scans[r];
      s.(scans := s.scans[r := if sc.at < 4 then Scanning(sc.id, sc.sure, sc.at + 1) else NotFound(sc.id, sc.sure)])
    case ScanRead =>
      var sc := s.scans[r];
      var n := Fin(sc.dir, sc.key);
      s.(scans := s.scans[r := if n in s.files && s.files[n].content.Whole?
                               then Found(sc.id, sc.dir, s.files[n].content.job) else ReadError(sc.id)])
  }

  predicate Enabled(s: State, st: Step) {
    match st
    case Enq(p, e) => CanEnq(s, p, e)
    case Claim(p, c) => CanClaim(s, p, c)
    case Mark(p, m) => CanMark(s, p, m)
    case Crash(_) => true
    case Unlink(d, key) => In(s, d, key)
    case Scan(r, a) => CanScan(s, r, a)
  }

  function Apply(s: State, st: Step): State
    requires Enabled(s, st)
  {
    match st
    case Enq(p, e) => DoEnq(s, p, e)
    case Claim(p, c) => DoClaim(s, p, c)
    case Mark(p, m) => DoMark(s, p, m)
    case Crash(p) => DoCrash(s, p)
    case Unlink(d, key) => Remove(s, Fin(d, key)).(gone := s.gone + {key.id})
    case Scan(r, a) => DoScan(s, r, a)
  }

  // ---------------------------------------------------------------- runs

  /** Every interleaving: a run is any sequence of enabled steps from the empty directories. */
  predicate Run(states: seq<State>, steps: seq<Step>) {
    && |states| == |steps| + 1 && states[0] == INIT
    && forall i | 0 <= i < |steps| :: Enabled(states[i], steps[i]) && states[i + 1] == Apply(states[i], steps[i])
  }

  /** os.Remove of a claimed pending file succeeds, as the claim assumes. */
  predicate RemovesSucceed(steps: seq<Step>) {
    forall i | 0 <= i < |steps| :: !(steps[i].Claim? && steps[i].c.ClaimRemoveFails?)
  }
}

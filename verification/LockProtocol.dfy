/** The cross-process lock of internal/syncstate/lock.go as a state machine: every file-system call is one
    atomic step, any number of processes interleave, and any of them may die at any point. */
module LockProtocol {
  import opened Basics

  /** What a lock file records. Times are in milliseconds. */
  datatype LockInfo = LockInfo(pid: int, host: string, command: string, startedAt: int)

  /** The JSON codec: how a holder is written, which texts are JSON, and how a text is read back. */
  datatype Codec = Codec(marshal: LockInfo -> string, valid: string -> bool, decode: string -> Option<LockInfo>)

  /** A complete record decodes to its holder, with or without its final newline; a torn one is not JSON. */
  ghost predicate Sound(c: Codec) {
    && (forall i: LockInfo :: c.valid(c.marshal(i)) && c.decode(c.marshal(i)) == Some(i))
    && (forall i: LockInfo :: c.valid(Data(c, i)) && c.decode(Data(c, i)) == Some(i))
    && (forall i: LockInfo, n: nat | n < |c.marshal(i)| :: !c.valid(c.marshal(i)[..n]))
  }

  /** The bytes an acquisition writes. */
  function Data(c: Codec, i: LockInfo): string {
    c.marshal(i) + "\n"
  }

  const STALE_AGE := 600_000
  const UNPARSABLE_AGE := 30_000
  const GUARD_STALE_AGE := 5_000

  /** `judgeLock`: whether content `data`, last modified at `mtime`, is stale for a process on `host` at `now`.
      `processAlive` is the operating system's answer for the recorded pid. */
  function JudgeStale(c: Codec, data: string, mtime: int, host: string, now: int, processAlive: bool): bool {
    if !c.valid(data) then now - mtime > UNPARSABLE_AGE
    else match c.decode(data)
      case None => true
      case Some(info) =>
        if info.pid <= 0 || now - info.startedAt > STALE_AGE then true
        else info.host == host && !processAlive
  }

  type Proc = nat
  type FileId = nat

  /** A file's identity never comes back: a reused inode shows up with another modification time. */
  datatype File = File(owner: Proc, content: string, mtime: int)

  /** The lock file an acquisition created and the record it writes there. */
  datatype Own = Own(id: FileId, info: LockInfo)

  /** Why a process wants the removal guard. */
  datatype Why = Reclaim(id: FileId, bytes: string, mtime: int) | Unlock(own: Own)

  datatype Pc =
    | Idle
    | Creating(own: Own)                                  // O_EXCL create done, writing the record
    | CreateFailed(own: Own)                              // the write failed: about to remove the path unguarded
    | Blocked                                             // the create found a file
    | Opened(id: FileId, mtime: int)                      // opened and stat'ed it
    | HasRead(id: FileId, bytes: string, mtime: int)      // read it, about to judge
    | Wanting(why: Why)                                   // about to create the guard
    | Statted(why: Why, gid: FileId, gmtime: int)         // the guard exists, about to check its age
    | Clearing(why: Why, gid: FileId, gmtime: int)        // judged it stale, about to rename it aside
    | Aside(why: Why, gid: FileId, gmtime: int, moved: FileId) // renamed, about to compare
    | PutBack(why: Why, moved: FileId)                    // another guard was moved: about to link it back
    | DropAside(why: Why, retry: bool)                    // about to remove the name aside
    | Guarded(why: Why, gid: FileId, gmtime: int)         // holds the guard, about to open the lock
    | GuardFailed(why: Why, gid: FileId)                  // could not stat its guard: about to remove the path
    | GuardedOpened(why: Why, gid: FileId, gmtime: int, id: FileId, mtime: int) // about to read and compare
    | Matched(why: Why, gid: FileId, gmtime: int)         // unchanged: about to remove the lock path
    | Releasing(why: Why, gid: FileId, gmtime: int)       // about to check that the guard is still its own
    | ReleaseRemove(why: Why, gid: FileId)                // about to remove the guard path
    | Holding(own: Own)
    | Fallback(own: Own)                                  // unlock without the guard
    | FallbackOpened(own: Own, id: FileId)
    | FallbackMatched(own: Own)

  datatype Local = Local(alive: bool, pid: int, host: string, command: string, pc: Pc)

  datatype State = State(now: int, lock: Option<FileId>, guard: Option<FileId>,
                         files: map<FileId, File>, next: FileId, procs: map<Proc, Local>)

  datatype Action =
    | Tick(d: nat)
    | Die(p: Proc)
    | TryCreate(p: Proc, startedAt: int)
    | WriteMore(p: Proc, n: nat)
    | CreateDone(p: Proc)
    | CreateFails(p: Proc)
    | CreateCleanup(p: Proc)
    | OpenLock(p: Proc)
    | ReadLock(p: Proc)
    | Judge(p: Proc, processAlive: bool)
    | BeginUnlock(p: Proc)
    | TryGuard(p: Proc)
    | GiveUpGuard(p: Proc)
    | CheckGuardAge(p: Proc)
    | RenameAside(p: Proc)
    | CompareAside(p: Proc)
    | AsideStatFails(p: Proc)
    | LinkBack(p: Proc)
    | DropName(p: Proc)
    | GuardStatFails(p: Proc)
    | GuardCleanup(p: Proc)
    | OpenGuarded(p: Proc)
    | CompareGuarded(p: Proc)
    | RemoveGuarded(p: Proc)
    | CheckRelease(p: Proc)
    | RemoveGuard(p: Proc)
    | OpenFallback(p: Proc)
    | CompareFallback(p: Proc)
    | RemoveFallback(p: Proc)
    | IoError(p: Proc)

  predicate At(s: State, p: Proc) {
    p in s.procs && s.procs[p].alive
  }

  function PcOf(s: State, p: Proc): Pc
    requires p in s.procs
  {
    s.procs[p].pc
  }

  function Goto(s: State, p: Proc, pc: Pc): State
    requires p in s.procs
  {
    s.(procs := s.procs[p := s.procs[p].(pc := pc)])
  }

  /** Some live process of `host` has the pid that `bytes` records: the system reports it alive. */
  ghost predicate RecordsLive(c: Codec, s: State, bytes: string, host: string) {
    exists q :: At(s, q) && c.valid(bytes) && c.decode(bytes).Some?
                && c.decode(bytes).value.pid == s.procs[q].pid
                && c.decode(bytes).value.host == s.procs[q].host == host
  }

  ghost predicate Enabled(c: Codec, s: State, a: Action) {
    match a
    case Tick(_) => true
    case Die(p) => At(s, p)
    case TryCreate(p, t) => At(s, p) && PcOf(s, p).Idle? && t <= s.now
    case WriteMore(p, n) =>
      At(s, p) && PcOf(s, p).Creating? && PcOf(s, p).own.id in s.files
      && |s.files[PcOf(s, p).own.id].content| < n <= |Data(c, PcOf(s, p).own.info)|
    case CreateDone(p) =>
      At(s, p) && PcOf(s, p).Creating? && PcOf(s, p).own.id in s.files
      && s.files[PcOf(s, p).own.id].content == Data(c, PcOf(s, p).own.info)
    case CreateFails(p) => At(s, p) && PcOf(s, p).Creating?
    case CreateCleanup(p) => At(s, p) && PcOf(s, p).CreateFailed?
    case OpenLock(p) => At(s, p) && PcOf(s, p).Blocked? && (s.lock.Some? ==> s.lock.value in s.files)
    case ReadLock(p) => At(s, p) && PcOf(s, p).Opened? && PcOf(s, p).id in s.files
    case Judge(p, alive) =>
      At(s, p) && PcOf(s, p).HasRead?
      && (RecordsLive(c, s, PcOf(s, p).bytes, s.procs[p].host) ==> alive)
    case BeginUnlock(p) => At(s, p) && PcOf(s, p).Holding?
    case TryGuard(p) => At(s, p) && PcOf(s, p).Wanting? && (s.guard.Some? ==> s.guard.value in s.files)
    case GiveUpGuard(p) => At(s, p) && PcOf(s, p).Wanting?
    case CheckGuardAge(p) => At(s, p) && PcOf(s, p).Statted?
    case RenameAside(p) => At(s, p) && PcOf(s, p).Clearing?
    case CompareAside(p) => At(s, p) && PcOf(s, p).Aside? && PcOf(s, p).moved in s.files
    case AsideStatFails(p) => At(s, p) && PcOf(s, p).Aside?
    case LinkBack(p) => At(s, p) && PcOf(s, p).PutBack?
    case DropName(p) => At(s, p) && PcOf(s, p).DropAside?
    case GuardStatFails(p) => At(s, p) && PcOf(s, p).Guarded?
    case GuardCleanup(p) => At(s, p) && PcOf(s, p).GuardFailed?
    case OpenGuarded(p) => At(s, p) && PcOf(s, p).Guarded? && (s.lock.Some? ==> s.lock.value in s.files)
    case CompareGuarded(p) => At(s, p) && PcOf(s, p).GuardedOpened? && PcOf(s, p).id in s.files
    case RemoveGuarded(p) => At(s, p) && PcOf(s, p).Matched?
    case CheckRelease(p) => At(s, p) && PcOf(s, p).Releasing? && (s.guard.Some? ==> s.guard.value in s.files)
    case RemoveGuard(p) => At(s, p) && PcOf(s, p).ReleaseRemove?
    case OpenFallback(p) => At(s, p) && PcOf(s, p).Fallback? && (s.lock.Some? ==> s.lock.value in s.files)
    case CompareFallback(p) => At(s, p) && PcOf(s, p).FallbackOpened? && PcOf(s, p).id in s.files
    case RemoveFallback(p) => At(s, p) && PcOf(s, p).FallbackMatched?
    case IoError(p) => At(s, p) && AfterError(PcOf(s, p)).Some?
  }

  /** Where an I/O error leads: nothing is removed, and whatever the step was for is left as it is. */
  function AfterError(pc: Pc): Option<Pc> {
    match pc
    case CreateFailed(_) | Blocked | Opened(_, _) => Some(Idle)
    case Fallback(_) | FallbackOpened(_, _) | FallbackMatched(_) => Some(Idle)
    case Guarded(why, g, m) => Some(Releasing(why, g, m))
    case GuardedOpened(why, g, m, _, _) => Some(Releasing(why, g, m))
    case Matched(why, g, m) => Some(Releasing(why, g, m))
    case Releasing(_, _, _) | ReleaseRemove(_, _) => Some(Idle)
    case _ => None
  }

  /** Where a process goes when it did not get the guard: a reclaimer ends its round, an unlock polls on. */
  function NoGuard(why: Why): Pc {
    if why.Reclaim? then Idle else Wanting(why)
  }

  ghost function Step(c: Codec, s: State, a: Action): State
    requires Enabled(c, s, a)
  {
    match a
    case Tick(d) => s.(now := s.now + d)
    case Die(p) => s.(procs := s.procs[p := s.procs[p].(alive := false)])
    case TryCreate(p, t) =>
      if s.lock.Some? then Goto(s, p, Blocked)
      else
        var l := s.procs[p];
        var own := Own(s.next, LockInfo(l.pid, l.host, l.command, t));
        Goto(s, p, Creating(own)).(lock := Some(s.next), files := s.files[s.next := File(p, "", s.now)],
                                   next := s.next + 1)
    case WriteMore(p, n) =>
      var own := PcOf(s, p).own;
      s.(files := s.files[own.id := File(s.files[own.id].owner, Data(c, own.info)[..n], s.now)])
    case CreateDone(p) => Goto(s, p, Holding(PcOf(s, p).own))
    case CreateFails(p) => Goto(s, p, CreateFailed(PcOf(s, p).own))
    case CreateCleanup(p) => Goto(s, p, Idle).(lock := None)
    case OpenLock(p) =>
      if s.lock.None? then Goto(s, p, Idle) else Goto(s, p, Opened(s.lock.value, s.files[s.lock.value].mtime))
    case ReadLock(p) =>
      var pc := PcOf(s, p);
      Goto(s, p, HasRead(pc.id, s.files[pc.id].content, pc.mtime))
    case Judge(p, alive) =>
      var pc := PcOf(s, p);
      if JudgeStale(c, pc.bytes, pc.mtime, s.procs[p].host, s.now, alive)
      then Goto(s, p, Wanting(Reclaim(pc.id, pc.bytes, pc.mtime)))
      else Goto(s, p, Idle)
    case BeginUnlock(p) => Goto(s, p, Wanting(Unlock(PcOf(s, p).own)))
    case TryGuard(p) =>
      var why := PcOf(s, p).why;
      if s.guard.None? then
        Goto(s, p, Guarded(why, s.next, s.now)).(guard := Some(s.next),
             files := s.files[s.next := File(p, "", s.now)], next := s.next + 1)
      else Goto(s, p, Statted(why, s.guard.value, s.files[s.guard.value].mtime))
    case GiveUpGuard(p) =>
      var why := PcOf(s, p).why;
      if why.Reclaim? then Goto(s, p, Idle) else Goto(s, p, Fallback(why.own))
    case CheckGuardAge(p) =>
      var pc := PcOf(s, p);
      if s.now - pc.gmtime <= GUARD_STALE_AGE then Goto(s, p, NoGuard(pc.why))
      else Goto(s, p, Clearing(pc.why, pc.gid, pc.gmtime))
    case RenameAside(p) =>
      var pc := PcOf(s, p);
      if s.guard.None? then Goto(s, p, Wanting(pc.why))
      else Goto(s, p, Aside(pc.why, pc.gid, pc.gmtime, s.guard.value)).(guard := None)
    case CompareAside(p) =>
      var pc := PcOf(s, p);
      if pc.moved == pc.gid && s.files[pc.moved].mtime == pc.gmtime then Goto(s, p, DropAside(pc.why, true))
      else Goto(s, p, PutBack(pc.why, pc.moved))
    case AsideStatFails(p) => Goto(s, p, PutBack(PcOf(s, p).why, PcOf(s, p).moved))
    case LinkBack(p) =>
      var pc := PcOf(s, p);
      Goto(s, p, DropAside(pc.why, false)).(guard := if s.guard.None? then Some(pc.moved) else s.guard)
    case DropName(p) =>
      var pc := PcOf(s, p);
      Goto(s, p, if pc.retry then Wanting(pc.why) else NoGuard(pc.why))
    case GuardStatFails(p) => Goto(s, p, GuardFailed(PcOf(s, p).why, PcOf(s, p).gid))
    case GuardCleanup(p) =>
      var why := PcOf(s, p).why;
      Goto(s, p, if why.Reclaim? then Idle else Fallback(why.own)).(guard := None)
    case OpenGuarded(p) =>
      var pc := PcOf(s, p);
      if s.lock.None? then Goto(s, p, Releasing(pc.why, pc.gid, pc.gmtime))
      else Goto(s, p, GuardedOpened(pc.why, pc.gid, pc.gmtime, s.lock.value, s.files[s.lock.value].mtime))
    case CompareGuarded(p) =>
      var pc := PcOf(s, p);
      if Unchanged(c, pc.why, pc.id, s.files[pc.id].content, pc.mtime)
      then Goto(s, p, Matched(pc.why, pc.gid, pc.gmtime))
      else Goto(s, p, Releasing(pc.why, pc.gid, pc.gmtime))
    case RemoveGuarded(p) =>
      var pc := PcOf(s, p);
      Goto(s, p, Releasing(pc.why, pc.gid, pc.gmtime)).(lock := None)
    case CheckRelease(p) =>
      var pc := PcOf(s, p);
      if s.guard == Some(pc.gid) && s.files[pc.gid].mtime == pc.gmtime
      then Goto(s, p, ReleaseRemove(pc.why, pc.gid))
      else Goto(s, p, Idle)
    case RemoveGuard(p) => Goto(s, p, Idle).(guard := None)
    case OpenFallback(p) =>
      if s.lock.None? then Goto(s, p, Idle) else Goto(s, p, FallbackOpened(PcOf(s, p).own, s.lock.value))
    case CompareFallback(p) =>
      var pc := PcOf(s, p);
      if s.files[pc.id].content == Data(c, pc.own.info) then Goto(s, p, FallbackMatched(pc.own)) else Goto(s, p, Idle)
    case RemoveFallback(p) => Goto(s, p, Idle).(lock := None)
    case IoError(p) => Goto(s, p, AfterError(PcOf(s, p)).value)
  }

  /** The comparison of `removeLockIfUnchanged`: bytes, and for a reclaim also identity and modification time. */
  predicate Unchanged(c: Codec, why: Why, id: FileId, content: string, mtime: int) {
    match why
    case Reclaim(judged, bytes, m) => content == bytes && id == judged && mtime == m
    case Unlock(own) => content == Data(c, own.info)
  }

  // ---- Runs and the timing assumptions ----

  /** The guard a process made and is behind. */
  function GuardOf(pc: Pc): Option<FileId> {
    match pc
    case Guarded(_, g, _) => Some(g)
    case GuardFailed(_, g) => Some(g)
    case GuardedOpened(_, g, _, _, _) => Some(g)
    case Matched(_, g, _) => Some(g)
    case Releasing(_, g, _) => Some(g)
    case ReleaseRemove(_, g) => Some(g)
    case _ => None
  }

  /** The maker of a guard is alive and still behind it. */
  ghost predicate Behind(s: State, g: FileId)
    requires g in s.files
  {
    At(s, s.files[g].owner) && GuardOf(PcOf(s, s.files[g].owner)) == Some(g)
  }

  /** A file a clearer has moved aside although it is not the one it judged, and has not put back yet. */
  function MovedOf(pc: Pc): Option<FileId> {
    match pc
    case Aside(_, gid, _, moved) => if moved != gid then Some(moved) else None
    case PutBack(_, moved) => Some(moved)
    case _ => None
  }

  /** Nobody finds a guard over 5 seconds old while its maker is alive and still behind it. The guard of a process
      that died is another matter. */
  ghost predicate PromptGuards(s: State) {
    forall p | At(s, p) && PcOf(s, p).Statted? && PcOf(s, p).gid in s.files && Behind(s, PcOf(s, p).gid) ::
      s.now - PcOf(s, p).gmtime <= GUARD_STALE_AGE
  }

  /** No guard is made in a rename window: while some clearer has a file aside that is going back to the guard path,
      because it is not the one it judged, or cannot be stat'ed. */
  ghost predicate OutsideWindow(s: State, a: Action) {
    && (a.TryGuard? && s.guard.None? ==> forall q | q in s.procs :: MovedOf(PcOf(s, q)).None?)
    && (a.AsideStatFails? && a.p in s.procs && PcOf(s, a.p).Aside? && PcOf(s, a.p).moved == PcOf(s, a.p).gid ==>
          s.guard.None? && forall q | q in s.procs && q != a.p :: MovedOf(PcOf(s, q)).None?)
  }

  /** No guard goes stale at all: whoever looks at a guard checks its age within 5 seconds of its creation. */
  ghost predicate NoStaleGuard(s: State) {
    forall p | At(s, p) && PcOf(s, p).Statted? :: s.now - PcOf(s, p).gmtime <= GUARD_STALE_AGE
  }

  /** A live process writes its record within 30 seconds and holds the lock for at most 10 minutes. */
  ghost predicate PromptHolders(s: State) {
    forall p | At(s, p) && OwnOf(PcOf(s, p)).Some? ::
      var own := OwnOf(PcOf(s, p)).value;
      && s.now - own.info.startedAt <= STALE_AGE
      && (PcOf(s, p).Creating? || PcOf(s, p).CreateFailed? ==>
            own.id in s.files && s.now - s.files[own.id].mtime <= UNPARSABLE_AGE)
  }

  /** A first state: every process idle, possibly a lock file and a guard left by processes of the past. */
  ghost predicate Init(s: State) {
    && (forall p | p in s.procs :: s.procs[p].pc == Idle && s.procs[p].pid > 0)
    && (forall id | id in s.files :: id < s.next && s.files[id].owner !in s.procs)
    && (s.lock.Some? ==> s.lock.value in s.files)
    && (s.guard.Some? ==> s.guard.value in s.files && s.guard != s.lock)
  }

  ghost predicate IsRun(c: Codec, s0: State, acts: seq<Action>, tr: seq<State>) {
    && |tr| == |acts| + 1 && tr[0] == s0
    && forall i | 0 <= i < |acts| :: Enabled(c, tr[i], acts[i]) && tr[i + 1] == Step(c, tr[i], acts[i])
  }

  /** The acquisition a process is in charge of: from the create of its lock file until it removed it. */
  function OwnOf(pc: Pc): Option<Own> {
    match pc
    case Creating(o) => Some(o)
    case CreateFailed(o) => Some(o)
    case Holding(o) => Some(o)
    case Fallback(o) => Some(o)
    case FallbackOpened(o, _) => Some(o)
    case FallbackMatched(o) => Some(o)
    case Wanting(Unlock(o)) => Some(o)
    case Statted(Unlock(o), _, _) => Some(o)
    case Clearing(Unlock(o), _, _) => Some(o)
    case Aside(Unlock(o), _, _, _) => Some(o)
    case PutBack(Unlock(o), _) => Some(o)
    case DropAside(Unlock(o), _) => Some(o)
    case Guarded(Unlock(o), _, _) => Some(o)
    case GuardFailed(Unlock(o), _) => Some(o)
    case GuardedOpened(Unlock(o), _, _, _, _) => Some(o)
    case Matched(Unlock(o), _, _) => Some(o)
    case _ => None
  }

  /** At most one live process has the lock, and the file at the lock path is its own. */
  ghost predicate MutualExclusion(s: State) {
    && (forall p, q | At(s, p) && At(s, q) && OwnOf(PcOf(s, p)).Some? && OwnOf(PcOf(s, q)).Some? :: p == q)
    && (forall p | At(s, p) && OwnOf(PcOf(s, p)).Some? :: s.lock == Some(OwnOf(PcOf(s, p)).value.id))
  }
}

/** The lock path: what every step keeps of it, as long as one process at a time is behind the removal guard. */
module LockSafety {
  import opened Basics
  import opened LockProtocol

  /** At most one live process is behind a guard; `LockGuard` is about that. */
  ghost predicate GuardExclusive(s: State) {
    forall p, q | At(s, p) && At(s, q) && GuardOf(PcOf(s, p)).Some? && GuardOf(PcOf(s, q)).Some? :: p == q
  }

  /** The lock file a process judged stale and means to remove. */
  function JudgedOf(pc: Pc): Option<Why> {
    match pc
    case Wanting(w) => if w.Reclaim? then Some(w) else None
    case Statted(w, _, _) => if w.Reclaim? then Some(w) else None
    case Clearing(w, _, _) => if w.Reclaim? then Some(w) else None
    case Aside(w, _, _, _) => if w.Reclaim? then Some(w) else None
    case PutBack(w, _) => if w.Reclaim? then Some(w) else None
    case DropAside(w, _) => if w.Reclaim? then Some(w) else None
    case Guarded(w, _, _) => if w.Reclaim? then Some(w) else None
    case GuardFailed(w, _) => if w.Reclaim? then Some(w) else None
    case GuardedOpened(w, _, _, _, _) => if w.Reclaim? then Some(w) else None
    case Matched(w, _, _) => if w.Reclaim? then Some(w) else None
    case _ => None
  }

  /** Nobody alive is in charge of lock file `id` any more. */
  ghost predicate Gone(s: State, id: FileId)
    requires id in s.files
  {
    var q := s.files[id].owner;
    At(s, q) ==> OwnOf(PcOf(s, q)).None? || OwnOf(PcOf(s, q)).value.id != id
  }

  ghost predicate Shape(s: State) {
    && (forall id | id in s.files :: id < s.next)
    && (s.lock.Some? ==> s.lock.value in s.files)
    && (forall p | p in s.procs :: s.procs[p].pid > 0)
  }

  /** An acquisition's file is its own, holds a prefix of its record, and is at the lock path while it lives. */
  ghost predicate OwnFacts(c: Codec, s: State, p: Proc)
    requires p in s.procs
  {
    var l := s.procs[p];
    OwnOf(l.pc).Some? ==>
      var own := OwnOf(l.pc).value;
      && own.id in s.files && s.files[own.id].owner == p
      && own.info == LockInfo(l.pid, l.host, l.command, own.info.startedAt)
      && s.files[own.id].content <= Data(c, own.info)
      && (!l.pc.Creating? && !l.pc.CreateFailed? ==> s.files[own.id].content == Data(c, own.info))
      && (l.alive ==> s.lock == Some(own.id))
  }

  /** What was read from a lock file is still a prefix of it: a file only grows. */
  ghost predicate ReadFacts(s: State, pc: Pc) {
    && (pc.Opened? ==> pc.id in s.files)
    && (pc.FallbackOpened? ==> pc.id in s.files)
    && (pc.GuardedOpened? ==> pc.id in s.files)
    && (pc.HasRead? ==> pc.id in s.files && pc.bytes <= s.files[pc.id].content)
  }

  /** A judged file that is still exactly what was judged has nobody in charge of it. */
  ghost predicate JudgedFacts(s: State, pc: Pc) {
    JudgedOf(pc).Some? ==>
      var w := JudgedOf(pc).value;
      && w.id in s.files
      && w.bytes <= s.files[w.id].content
      && (s.files[w.id].content == w.bytes && s.files[w.id].mtime == w.mtime ==> Gone(s, w.id))
  }

  /** Under the guard: the file that is about to be compared, or removed, is an abandoned one at the lock path. */
  ghost predicate RemovalFacts(s: State, p: Proc)
    requires p in s.procs
  {
    var pc := s.procs[p].pc;
    s.procs[p].alive ==>
      && (pc.GuardedOpened? && pc.why.Reclaim? && pc.id == pc.why.id && pc.mtime == pc.why.mtime && pc.id in s.files ==>
            || (s.lock == Some(pc.id) && Gone(s, pc.id))
            || |s.files[pc.id].content| > |pc.why.bytes|)
      && (pc.Matched? && pc.why.Reclaim? ==>
            pc.why.id in s.files && s.lock == Some(pc.why.id) && Gone(s, pc.why.id))
  }

  ghost predicate Facts(c: Codec, s: State, p: Proc)
    requires p in s.procs
  {
    && OwnFacts(c, s, p)
    && ReadFacts(s, s.procs[p].pc)
    && JudgedFacts(s, s.procs[p].pc)
    && RemovalFacts(s, p)
  }

  ghost predicate Inv(c: Codec, s: State) {
    Shape(s) && forall p | p in s.procs :: Facts(c, s, p)
  }

  lemma InitInv(c: Codec, s: State)
    requires Init(s)
    ensures Inv(c, s)
  {
  }

  lemma InvExcludes(c: Codec, s: State)
    requires Inv(c, s)
    ensures MutualExclusion(s)
  {
    forall p, q | At(s, p) && At(s, q) && OwnOf(PcOf(s, p)).Some? && OwnOf(PcOf(s, q)).Some?
      ensures p == q
    {
      assert Facts(c, s, p) && Facts(c, s, q);
    }
    forall p | At(s, p) && OwnOf(PcOf(s, p)).Some?
      ensures s.lock == Some(OwnOf(PcOf(s, p)).value.id)
    {
      assert Facts(c, s, p);
    }
  }

  /** Another process's facts survive a step that keeps every file and the lock path, and abandons no less. */
  lemma Frame(c: Codec, s: State, t: State, r: Proc)
    requires r in s.procs && r in t.procs && s.procs[r] == t.procs[r] && Facts(c, s, r)
    requires t.lock == s.lock
    requires forall id | id in s.files :: id in t.files && t.files[id] == s.files[id]
    requires forall id | id in s.files && Gone(s, id) :: Gone(t, id)
    ensures Facts(c, t, r)
  {
  }

  /** A step that changes only process `p`, and leaves it in charge of nothing new. */
  ghost predicate OnlyProc(s: State, t: State, p: Proc) {
    && p in s.procs && p in t.procs
    && t.procs == s.procs[p := t.procs[p]]
    && t.procs[p].pid == s.procs[p].pid
    && (t.procs[p].alive ==> s.procs[p].alive)
    && (OwnOf(t.procs[p].pc).None? || OwnOf(t.procs[p].pc) == OwnOf(s.procs[p].pc))
  }

  lemma Local(c: Codec, s: State, t: State, p: Proc)
    requires Inv(c, s) && OnlyProc(s, t, p)
    requires t.lock == s.lock && Shape(t)
    requires forall id | id in s.files :: id in t.files && t.files[id] == s.files[id]
    requires Facts(c, t, p)
    ensures Inv(c, t)
  {
    forall r | r in t.procs
      ensures Facts(c, t, r)
    {
      if r != p {
        assert Facts(c, s, r);
        Frame(c, s, t, r);
      }
    }
  }

  lemma TickKeeps(c: Codec, s: State, d: nat)
    requires Inv(c, s)
    ensures Inv(c, Step(c, s, Tick(d)))
  {
    var t := Step(c, s, Tick(d));
    forall r | r in t.procs
      ensures Facts(c, t, r)
    {
      assert Facts(c, s, r);
      Frame(c, s, t, r);
    }
  }

  lemma DieKeeps(c: Codec, s: State, p: Proc)
    requires Inv(c, s) && Enabled(c, s, Die(p))
    ensures Inv(c, Step(c, s, Die(p)))
  {
    var t := Step(c, s, Die(p));
    assert Facts(c, s, p);
    Local(c, s, t, p);
  }

  lemma CreatingKeeps(c: Codec, s: State, p: Proc, a: Action)
    requires Inv(c, s) && Enabled(c, s, a)
    requires a == CreateDone(p) || a == CreateFails(p)
    ensures Inv(c, Step(c, s, a))
  {
    assert Facts(c, s, p);
    Local(c, s, Step(c, s, a), p);
  }

  lemma BeginUnlockKeeps(c: Codec, s: State, p: Proc)
    requires Inv(c, s) && Enabled(c, s, BeginUnlock(p))
    ensures Inv(c, Step(c, s, BeginUnlock(p)))
  {
    assert Facts(c, s, p);
    Local(c, s, Step(c, s, BeginUnlock(p)), p);
  }

  lemma ReadingKeeps(c: Codec, s: State, p: Proc, a: Action)
    requires Inv(c, s) && Enabled(c, s, a)
    requires a == OpenLock(p) || a == ReadLock(p)
    ensures Inv(c, Step(c, s, a))
  {
    assert Facts(c, s, p);
    Local(c, s, Step(c, s, a), p);
  }

  lemma ErrorKeeps(c: Codec, s: State, p: Proc)
    requires Inv(c, s) && Enabled(c, s, IoError(p))
    ensures Inv(c, Step(c, s, IoError(p)))
  {
    assert Facts(c, s, p);
    Local(c, s, Step(c, s, IoError(p)), p);
  }

  lemma OpenFallbackKeeps(c: Codec, s: State, p: Proc)
    requires Inv(c, s) && Enabled(c, s, OpenFallback(p))
    ensures Inv(c, Step(c, s, OpenFallback(p)))
  {
    assert Facts(c, s, p);
    Local(c, s, Step(c, s, OpenFallback(p)), p);
  }

  lemma CompareFallbackKeeps(c: Codec, s: State, p: Proc)
    requires Inv(c, s) && Enabled(c, s, CompareFallback(p))
    ensures Inv(c, Step(c, s, CompareFallback(p)))
  {
    assert Facts(c, s, p);
    Local(c, s, Step(c, s, CompareFallback(p)), p);
  }

  lemma GiveUpKeeps(c: Codec, s: State, p: Proc)
    requires Inv(c, s) && Enabled(c, s, GiveUpGuard(p))
    ensures Inv(c, Step(c, s, GiveUpGuard(p)))
  {
    assert Facts(c, s, p);
    Local(c, s, Step(c, s, GiveUpGuard(p)), p);
  }

  /** What a live process in charge of a lock file wrote there is never judged stale. */
  lemma LiveNotStale(c: Codec, s: State, p: Proc, q: Proc, mtime: int, processAlive: bool)
    requires Sound(c) && Inv(c, s) && PromptHolders(s)
    requires p in s.procs && At(s, q) && OwnOf(PcOf(s, q)).Some?
    requires OwnOf(PcOf(s, q)).value.id in s.files
    requires mtime == s.files[OwnOf(PcOf(s, q)).value.id].mtime
    requires RecordsLive(c, s, s.files[OwnOf(PcOf(s, q)).value.id].content, s.procs[p].host) ==> processAlive
    ensures !JudgeStale(c, s.files[OwnOf(PcOf(s, q)).value.id].content, mtime, s.procs[p].host, s.now, processAlive)
  {
    assert Facts(c, s, q);
    var own := OwnOf(PcOf(s, q)).value;
    var text, info := s.files[own.id].content, own.info;
    var n := |c.marshal(info)|;
    assert Data(c, info)[..n] == c.marshal(info);
    if |text| < n {
      assert text == c.marshal(info)[..|text|];
    } else {
      assert text == Data(c, info) || text == c.marshal(info) by {
        assert text == Data(c, info)[..|text|];
      }
      assert c.valid(text) && c.decode(text) == Some(info);
      if info.host == s.procs[p].host {
        assert RecordsLive(c, s, text, s.procs[p].host);
      }
    }
  }

  lemma JudgeKeeps(c: Codec, s: State, p: Proc, processAlive: bool)
    requires Sound(c) && Inv(c, s) && PromptHolders(s)
    requires Enabled(c, s, Judge(p, processAlive))
    ensures Inv(c, Step(c, s, Judge(p, processAlive)))
  {
    assert Facts(c, s, p);
    var pc, t := PcOf(s, p), Step(c, s, Judge(p, processAlive));
    var f := s.files[pc.id];
    if t.procs[p].pc.Wanting? && f.content == pc.bytes && f.mtime == pc.mtime && !Gone(s, pc.id) {
      LiveNotStale(c, s, p, f.owner, pc.mtime, processAlive);
      assert false;
    }
    assert Gone(s, pc.id) ==> Gone(t, pc.id);
    Local(c, s, t, p);
  }

  // Steps on the guard: seen from the lock path nothing happens.

  lemma GuardSeenKeeps(c: Codec, s: State, p: Proc, a: Action)
    requires Inv(c, s) && Enabled(c, s, a)
    requires a == CheckGuardAge(p) || (a == TryGuard(p) && s.guard.Some?)
    ensures Inv(c, Step(c, s, a))
  {
    assert Facts(c, s, p);
    Local(c, s, Step(c, s, a), p);
  }

  lemma GuardMovedKeeps(c: Codec, s: State, p: Proc, a: Action)
    requires Inv(c, s) && Enabled(c, s, a)
    requires a == RenameAside(p)
    ensures Inv(c, Step(c, s, a))
  {
    assert Facts(c, s, p);
    Local(c, s, Step(c, s, a), p);
  }

  lemma GuardComparedKeeps(c: Codec, s: State, p: Proc, a: Action)
    requires Inv(c, s) && Enabled(c, s, a)
    requires a == CompareAside(p)
    ensures Inv(c, Step(c, s, a))
  {
    assert Facts(c, s, p);
    Local(c, s, Step(c, s, a), p);
  }

  lemma GuardBackKeeps(c: Codec, s: State, p: Proc, a: Action)
    requires Inv(c, s) && Enabled(c, s, a)
    requires a == LinkBack(p)
    ensures Inv(c, Step(c, s, a))
  {
    assert Facts(c, s, p);
    Local(c, s, Step(c, s, a), p);
  }

  lemma GuardDroppedKeeps(c: Codec, s: State, p: Proc, a: Action)
    requires Inv(c, s) && Enabled(c, s, a)
    requires a == DropName(p)
    ensures Inv(c, Step(c, s, a))
  {
    assert Facts(c, s, p);
    Local(c, s, Step(c, s, a), p);
  }

  lemma GuardReleasedKeeps(c: Codec, s: State, p: Proc, a: Action)
    requires Inv(c, s) && Enabled(c, s, a)
    requires a == CheckRelease(p) || a == RemoveGuard(p)
    ensures Inv(c, Step(c, s, a))
  {
    assert Facts(c, s, p);
    Local(c, s, Step(c, s, a), p);
  }

  lemma GuardErrorKeeps(c: Codec, s: State, p: Proc, a: Action)
    requires Inv(c, s) && Enabled(c, s, a)
    requires a == AsideStatFails(p)
    ensures Inv(c, Step(c, s, a))
  {
    assert Facts(c, s, p);
    Local(c, s, Step(c, s, a), p);
  }

  lemma GuardFailKeeps(c: Codec, s: State, p: Proc, a: Action)
    requires Inv(c, s) && Enabled(c, s, a)
    requires a == GuardStatFails(p)
    ensures Inv(c, Step(c, s, a))
  {
    assert Facts(c, s, p);
    Local(c, s, Step(c, s, a), p);
  }

  lemma GuardCleanupKeeps(c: Codec, s: State, p: Proc, a: Action)
    requires Inv(c, s) && Enabled(c, s, a)
    requires a == GuardCleanup(p)
    ensures Inv(c, Step(c, s, a))
  {
    assert Facts(c, s, p);
    Local(c, s, Step(c, s, a), p);
  }

  lemma OpenGuardedKeeps(c: Codec, s: State, p: Proc)
    requires Inv(c, s) && Enabled(c, s, OpenGuarded(p))
    ensures Inv(c, Step(c, s, OpenGuarded(p)))
  {
    assert Facts(c, s, p);
    Local(c, s, Step(c, s, OpenGuarded(p)), p);
  }

  lemma CompareGuardedKeeps(c: Codec, s: State, p: Proc)
    requires Inv(c, s) && Enabled(c, s, CompareGuarded(p))
    ensures Inv(c, Step(c, s, CompareGuarded(p)))
  {
    assert Facts(c, s, p);
    Local(c, s, Step(c, s, CompareGuarded(p)), p);
  }

  // ---- Steps that move a path or write a file ----

  lemma CreateKeeps(c: Codec, s: State, p: Proc, startedAt: int)
    requires Inv(c, s) && Enabled(c, s, TryCreate(p, startedAt))
    ensures Inv(c, Step(c, s, TryCreate(p, startedAt)))
  {
    var t := Step(c, s, TryCreate(p, startedAt));
    assert Facts(c, s, p);
    if s.lock.Some? {
      Local(c, s, t, p);
    } else {
      forall r | r in t.procs
        ensures Facts(c, t, r)
      {
        assert Facts(c, s, r);
      }
    }
  }

  lemma WriteKeeps(c: Codec, s: State, p: Proc, n: nat)
    requires Inv(c, s) && Enabled(c, s, WriteMore(p, n))
    ensures Inv(c, Step(c, s, WriteMore(p, n)))
  {
    var t := Step(c, s, WriteMore(p, n));
    var id := PcOf(s, p).own.id;
    assert Facts(c, s, p);
    assert s.files[id].content <= t.files[id].content && |s.files[id].content| < |t.files[id].content|;
    forall r | r in t.procs
      ensures Facts(c, t, r)
    {
      assert Facts(c, s, r);
    }
  }

  lemma GuardTakenKeeps(c: Codec, s: State, p: Proc)
    requires Inv(c, s) && Enabled(c, s, TryGuard(p)) && s.guard.None?
    ensures Inv(c, Step(c, s, TryGuard(p)))
  {
    assert Facts(c, s, p);
    Local(c, s, Step(c, s, TryGuard(p)), p);
  }

  /** Nobody else counts on the lock path when the process that removes it does. */
  ghost predicate MayRemove(s: State, p: Proc) {
    && s.lock.Some? && s.lock.value in s.files
    && forall r | r in s.procs && r != p && s.procs[r].alive ::
        && (OwnOf(PcOf(s, r)).Some? ==> s.lock != Some(OwnOf(PcOf(s, r)).value.id))
        && !(PcOf(s, r).Matched? && PcOf(s, r).why.Reclaim?)
        && (PcOf(s, r).GuardedOpened? && PcOf(s, r).why.Reclaim? && s.lock == Some(PcOf(s, r).id) ==>
              !Gone(s, s.lock.value))
  }

  lemma Removal(c: Codec, s: State, t: State, p: Proc)
    requires Inv(c, s) && OnlyProc(s, t, p) && MayRemove(s, p)
    requires t.lock == None && t.files == s.files && t.next == s.next
    requires Facts(c, t, p)
    ensures Inv(c, t)
  {
    forall r | r in t.procs
      ensures Facts(c, t, r)
    {
      if r != p {
        assert Facts(c, s, r);
      }
    }
  }

  /** The process in charge of the file at the lock path removes it. */
  lemma OwnerMayRemove(c: Codec, s: State, p: Proc)
    requires Inv(c, s) && At(s, p) && OwnOf(PcOf(s, p)).Some?
    ensures MayRemove(s, p)
  {
    assert Facts(c, s, p);
    forall r | r in s.procs && r != p && s.procs[r].alive
      ensures OwnOf(PcOf(s, r)).Some? ==> s.lock != Some(OwnOf(PcOf(s, r)).value.id)
      ensures !(PcOf(s, r).Matched? && PcOf(s, r).why.Reclaim?)
    {
      assert Facts(c, s, r);
    }
  }

  /** A reclaimer that holds the guard removes an abandoned file. */
  lemma ReclaimerMayRemove(c: Codec, s: State, p: Proc)
    requires Inv(c, s) && GuardExclusive(s) && At(s, p) && PcOf(s, p).Matched? && PcOf(s, p).why.Reclaim?
    ensures MayRemove(s, p)
  {
    assert Facts(c, s, p);
    forall r | r in s.procs && r != p && s.procs[r].alive
      ensures OwnOf(PcOf(s, r)).Some? ==> s.lock != Some(OwnOf(PcOf(s, r)).value.id)
      ensures GuardOf(PcOf(s, r)).None?
    {
      assert Facts(c, s, r);
    }
  }

  lemma RemoveLockKeeps(c: Codec, s: State, p: Proc, a: Action)
    requires Inv(c, s) && Enabled(c, s, a)
    requires a == CreateCleanup(p) || a == RemoveFallback(p)
    ensures Inv(c, Step(c, s, a))
  {
    OwnerMayRemove(c, s, p);
    Removal(c, s, Step(c, s, a), p);
  }

  lemma RemoveGuardedKeeps(c: Codec, s: State, p: Proc)
    requires Inv(c, s) && GuardExclusive(s) && Enabled(c, s, RemoveGuarded(p))
    ensures Inv(c, Step(c, s, RemoveGuarded(p)))
  {
    if PcOf(s, p).why.Reclaim? {
      ReclaimerMayRemove(c, s, p);
    } else {
      OwnerMayRemove(c, s, p);
    }
    assert Facts(c, s, p);
    Removal(c, s, Step(c, s, RemoveGuarded(p)), p);
  }

  lemma StepKeeps(c: Codec, s: State, a: Action)
    requires Sound(c) && Inv(c, s) && GuardExclusive(s) && PromptHolders(s) && Enabled(c, s, a)
    ensures Inv(c, Step(c, s, a))
  {
    hide Inv, Step, Enabled, PromptHolders, GuardExclusive, Sound;
    match a
    case Tick(d) => TickKeeps(c, s, d);
    case Die(p) => DieKeeps(c, s, p);
    case TryCreate(p, startedAt) => CreateKeeps(c, s, p, startedAt);
    case WriteMore(p, n) => WriteKeeps(c, s, p, n);
    case CreateDone(p) => CreatingKeeps(c, s, p, a);
    case CreateFails(p) => CreatingKeeps(c, s, p, a);
    case BeginUnlock(p) => BeginUnlockKeeps(c, s, p);
    case CreateCleanup(p) => RemoveLockKeeps(c, s, p, a);
    case RemoveGuarded(p) => RemoveGuardedKeeps(c, s, p);
    case RemoveFallback(p) => RemoveLockKeeps(c, s, p, a);
    case OpenLock(p) => ReadingKeeps(c, s, p, a);
    case ReadLock(p) => ReadingKeeps(c, s, p, a);
    case IoError(p) => ErrorKeeps(c, s, p);
    case Judge(p, processAlive) => JudgeKeeps(c, s, p, processAlive);
    case TryGuard(p) => if s.guard.Some? { GuardSeenKeeps(c, s, p, a); } else { GuardTakenKeeps(c, s, p); }
    case GiveUpGuard(p) => GiveUpKeeps(c, s, p);
    case OpenFallback(p) => OpenFallbackKeeps(c, s, p);
    case CompareFallback(p) => CompareFallbackKeeps(c, s, p);
    case CheckGuardAge(p) => GuardSeenKeeps(c, s, p, a);
    case RenameAside(p) => GuardMovedKeeps(c, s, p, a);
    case CompareAside(p) => GuardComparedKeeps(c, s, p, a);
    case LinkBack(p) => GuardBackKeeps(c, s, p, a);
    case DropName(p) => GuardDroppedKeeps(c, s, p, a);
    case OpenGuarded(p) => OpenGuardedKeeps(c, s, p);
    case CompareGuarded(p) => CompareGuardedKeeps(c, s, p);
    case CheckRelease(p) => GuardReleasedKeeps(c, s, p, a);
    case RemoveGuard(p) => GuardReleasedKeeps(c, s, p, a);
    case AsideStatFails(p) => GuardErrorKeeps(c, s, p, a);
    case GuardStatFails(p) => GuardFailKeeps(c, s, p, a);
    case GuardCleanup(p) => GuardCleanupKeeps(c, s, p, a);
  }
}

/** The removal guard, and mutual exclusion of the whole lock: also while guards left by dead processes are renamed
    aside, compared, dropped or put back. */
module LockGuard {
  import opened Basics
  import opened LockProtocol
  import LockSafety

  // ---- The invariant of the guard path ----

  /** A file some clearer is about to put back. */
  ghost predicate InWindow(s: State, g: FileId) {
    exists q :: q in s.procs && MovedOf(PcOf(s, q)) == Some(g)
  }

  ghost predicate Shape(s: State) {
    && (forall id | id in s.files :: id < s.next)
    && (s.lock.Some? ==> s.lock.value in s.files)
    && (s.guard.Some? ==> s.guard.value in s.files && s.guard != s.lock)
  }

  /** A guard file somebody looked at: it is no lock file, and its modification time is what was seen. */
  ghost predicate Seen(s: State, g: FileId, mtime: int) {
    g in s.files && s.files[g].mtime == mtime && s.lock != Some(g)
  }

  /** The file being looked at, judged or held aside; nobody is behind one that was judged stale. */
  ghost predicate SeenFacts(s: State, pc: Pc) {
    && (pc.Statted? ==> Seen(s, pc.gid, pc.gmtime))
    && (pc.Clearing? ==> Seen(s, pc.gid, pc.gmtime) && !Behind(s, pc.gid))
    && (pc.Aside? ==> Seen(s, pc.gid, pc.gmtime) && pc.moved in s.files && s.lock != Some(pc.moved))
    && (pc.PutBack? ==> pc.moved in s.files && s.lock != Some(pc.moved))
  }

  /** A live process behind a guard made it, and it is at the guard path or about to be put back there. */
  ghost predicate GuardFacts(s: State, p: Proc)
    requires p in s.procs
  {
    var l := s.procs[p];
    GuardOf(l.pc).Some? ==>
      var g := GuardOf(l.pc).value;
      g in s.files && s.files[g].owner == p && s.lock != Some(g)
      && (l.alive ==> s.guard == Some(g) || InWindow(s, g))
  }

  /** While a file is aside to be put back, the guard path is free and no other is aside. */
  ghost predicate WindowFacts(s: State, p: Proc)
    requires p in s.procs
  {
    MovedOf(PcOf(s, p)).Some? ==>
      s.guard.None? && forall q | q in s.procs && MovedOf(PcOf(s, q)).Some? :: q == p
  }

  ghost predicate Facts(s: State, p: Proc)
    requires p in s.procs
  {
    SeenFacts(s, PcOf(s, p)) && GuardFacts(s, p) && WindowFacts(s, p)
  }

  ghost predicate Inv(s: State) {
    Shape(s) && forall p | p in s.procs :: Facts(s, p)
  }

  lemma InitInv(s: State)
    requires Init(s)
    ensures Inv(s)
  {
  }

  /** Two live processes behind guards are one process. */
  lemma GuardsExclude(s: State)
    requires Inv(s)
    ensures LockSafety.GuardExclusive(s)
  {
    forall p, q | At(s, p) && At(s, q) && GuardOf(PcOf(s, p)).Some? && GuardOf(PcOf(s, q)).Some?
      ensures p == q
    {
      assert Facts(s, p) && Facts(s, q);
      OneGuard(s, p, q);
    }
  }

  lemma OneGuard(s: State, p: Proc, q: Proc)
    requires Inv(s) && At(s, p) && At(s, q) && GuardOf(PcOf(s, p)).Some? && GuardOf(PcOf(s, q)).Some?
    requires GuardFacts(s, p) && GuardFacts(s, q)
    ensures GuardOf(PcOf(s, p)) == GuardOf(PcOf(s, q)) && p == q
  {
    var g, h := GuardOf(PcOf(s, p)).value, GuardOf(PcOf(s, q)).value;
    if s.guard.Some? {
      NoWindow(s, g);
      NoWindow(s, h);
    } else {
      var m :| m in s.procs && MovedOf(PcOf(s, m)) == Some(g);
      var n :| n in s.procs && MovedOf(PcOf(s, n)) == Some(h);
      assert Facts(s, m);
    }
  }

  lemma NoneMoved(s: State, r: Proc)
    requires Inv(s) && s.guard.Some? && r in s.procs
    ensures MovedOf(PcOf(s, r)).None?
  {
    assert Facts(s, r);
  }

  lemma NoWindow(s: State, g: FileId)
    requires Inv(s) && s.guard.Some?
    ensures !InWindow(s, g)
  {
    forall q | q in s.procs
      ensures MovedOf(PcOf(s, q)) != Some(g)
    {
      NoneMoved(s, q);
    }
  }

  // ---- Steps that leave the guard path alone ----

  /** Process `p` takes no guard, lets none go back, and moves none; files keep their makers, and all but the lock
      file their modification times. */
  ghost predicate Quiet(s: State, t: State, p: Proc) {
    && p in s.procs && p in t.procs && t.procs == s.procs[p := t.procs[p]]
    && (t.procs[p].alive ==> s.procs[p].alive)
    && MovedOf(PcOf(t, p)) == MovedOf(PcOf(s, p))
    && (GuardOf(PcOf(t, p)) == GuardOf(PcOf(s, p)) || GuardOf(PcOf(t, p)).None?)
    && t.guard == s.guard && Shape(t)
    && (t.lock == s.lock || t.lock.None? || t.lock.value >= s.next)
    && (forall id | id in s.files :: id in t.files && t.files[id].owner == s.files[id].owner
          && (t.files[id].mtime == s.files[id].mtime || s.lock == Some(id)))
  }

  lemma QuietWindow(s: State, t: State, p: Proc, g: FileId)
    requires Quiet(s, t, p)
    ensures InWindow(t, g) <==> InWindow(s, g)
  {
    if InWindow(s, g) {
      var q :| q in s.procs && MovedOf(PcOf(s, q)) == Some(g);
      assert q in t.procs && MovedOf(PcOf(t, q)) == Some(g);
    }
    if InWindow(t, g) {
      var q :| q in t.procs && MovedOf(PcOf(t, q)) == Some(g);
      assert q in s.procs && MovedOf(PcOf(s, q)) == Some(g);
    }
  }

  lemma QuietOthers(s: State, t: State, p: Proc, r: Proc)
    requires Shape(s) && Quiet(s, t, p) && r in s.procs && r != p && Facts(s, r)
    ensures Facts(t, r)
  {
    hide InWindow;
    forall g
      ensures InWindow(t, g) <==> InWindow(s, g)
    {
      QuietWindow(s, t, p, g);
    }
  }

  lemma QuietKeeps(s: State, t: State, p: Proc)
    requires Inv(s) && Quiet(s, t, p) && SeenFacts(t, PcOf(t, p))
    ensures Inv(t)
  {
    hide SeenFacts, Seen, InWindow, Quiet;
    assert t.procs == s.procs[p := t.procs[p]] && Shape(t) && p in s.procs by { QuietMeans(s, t, p); }
    forall r | r in t.procs
      ensures Facts(t, r)
    {
      assert Facts(s, r);
      if r != p {
        QuietOthers(s, t, p, r);
      } else {
        QuietSelf(s, t, p);
      }
    }
  }

  lemma QuietMeans(s: State, t: State, p: Proc)
    requires Quiet(s, t, p)
    ensures p in s.procs && t.procs == s.procs[p := t.procs[p]] && Shape(t)
  {
  }

  lemma QuietSelf(s: State, t: State, p: Proc)
    requires Shape(s) && Quiet(s, t, p) && GuardFacts(s, p) && WindowFacts(s, p)
    ensures GuardFacts(t, p) && WindowFacts(t, p)
  {
    hide InWindow;
    forall g
      ensures InWindow(t, g) <==> InWindow(s, g)
    {
      QuietWindow(s, t, p, g);
    }
  }

  // Each of the other steps is quiet.

  lemma AcquireKeeps(c: Codec, s: State, p: Proc, a: Action)
    requires Inv(s) && Enabled(c, s, a)
    requires a == CreateDone(p) || a == CreateFails(p) || a == CreateCleanup(p) || a == OpenLock(p) || a == ReadLock(p)
    ensures Inv(Step(c, s, a))
  {
    assert Facts(s, p);
    QuietKeeps(s, Step(c, s, a), p);
  }

  lemma OwnerKeeps(c: Codec, s: State, p: Proc, a: Action)
    requires Inv(s) && Enabled(c, s, a)
    requires a == BeginUnlock(p) || a == GiveUpGuard(p) || a == RemoveFallback(p)
    ensures Inv(Step(c, s, a))
  {
    assert Facts(s, p);
    QuietKeeps(s, Step(c, s, a), p);
  }

  lemma FallbackKeeps(c: Codec, s: State, p: Proc, a: Action)
    requires Inv(s) && Enabled(c, s, a)
    requires a == OpenFallback(p)
    ensures Inv(Step(c, s, a))
  {
    assert Facts(s, p);
    QuietKeeps(s, Step(c, s, a), p);
  }

  lemma CompareFallbackKeeps(c: Codec, s: State, p: Proc, a: Action)
    requires Inv(s) && Enabled(c, s, a)
    requires a == CompareFallback(p)
    ensures Inv(Step(c, s, a))
  {
    assert Facts(s, p);
    QuietKeeps(s, Step(c, s, a), p);
  }

  lemma SectionKeeps(c: Codec, s: State, p: Proc, a: Action)
    requires Inv(s) && Enabled(c, s, a)
    requires a == OpenGuarded(p)
    ensures Inv(Step(c, s, a))
  {
    assert Facts(s, p);
    QuietKeeps(s, Step(c, s, a), p);
  }

  lemma CompareLockKeeps(c: Codec, s: State, p: Proc, a: Action)
    requires Inv(s) && Enabled(c, s, a)
    requires a == CompareGuarded(p)
    ensures Inv(Step(c, s, a))
  {
    assert Facts(s, p);
    QuietKeeps(s, Step(c, s, a), p);
  }

  lemma LeaveKeeps(c: Codec, s: State, p: Proc, a: Action)
    requires Inv(s) && Enabled(c, s, a)
    requires a == RemoveGuarded(p) || a == CheckRelease(p)
    ensures Inv(Step(c, s, a))
  {
    assert Facts(s, p);
    QuietKeeps(s, Step(c, s, a), p);
  }

  lemma ErrorKeeps(c: Codec, s: State, p: Proc, a: Action)
    requires Inv(s) && Enabled(c, s, a)
    requires a == IoError(p) || a == Die(p) || a == DropName(p)
    ensures Inv(Step(c, s, a))
  {
    assert Facts(s, p);
    QuietKeeps(s, Step(c, s, a), p);
  }

  lemma FailKeeps(c: Codec, s: State, p: Proc)
    requires Inv(s) && Enabled(c, s, GuardStatFails(p))
    ensures Inv(Step(c, s, GuardStatFails(p)))
  {
    assert Facts(s, p);
    QuietKeeps(s, Step(c, s, GuardStatFails(p)), p);
  }

  lemma CreateKeeps(c: Codec, s: State, p: Proc, startedAt: int)
    requires Inv(s) && Enabled(c, s, TryCreate(p, startedAt))
    ensures Inv(Step(c, s, TryCreate(p, startedAt)))
  {
    assert Facts(s, p);
    QuietKeeps(s, Step(c, s, TryCreate(p, startedAt)), p);
  }

  lemma JudgeKeeps(c: Codec, s: State, p: Proc, processAlive: bool)
    requires Inv(s) && Enabled(c, s, Judge(p, processAlive))
    ensures Inv(Step(c, s, Judge(p, processAlive)))
  {
    assert Facts(s, p);
    QuietKeeps(s, Step(c, s, Judge(p, processAlive)), p);
  }

  /** Writing the record touches the file at the lock path, which is no guard. */
  lemma WriteKeeps(c: Codec, s: State, p: Proc, n: nat)
    requires Inv(s) && LockSafety.Inv(c, s) && Enabled(c, s, WriteMore(p, n))
    ensures Inv(Step(c, s, WriteMore(p, n)))
  {
    assert Facts(s, p) && LockSafety.Facts(c, s, p);
    QuietKeeps(s, Step(c, s, WriteMore(p, n)), p);
  }

  lemma LookKeeps(c: Codec, s: State, p: Proc)
    requires Inv(s) && Enabled(c, s, TryGuard(p)) && s.guard.Some?
    ensures Inv(Step(c, s, TryGuard(p)))
  {
    assert Facts(s, p);
    QuietKeeps(s, Step(c, s, TryGuard(p)), p);
  }

  /** A guard is judged stale only when nobody is behind it. */
  lemma AgeKeeps(c: Codec, s: State, p: Proc)
    requires Inv(s) && PromptGuards(s) && Enabled(c, s, CheckGuardAge(p))
    ensures Inv(Step(c, s, CheckGuardAge(p)))
  {
    assert Facts(s, p);
    QuietKeeps(s, Step(c, s, CheckGuardAge(p)), p);
  }

  /** The judged file is dropped, any other is about to be put back. */
  lemma CompareKeeps(c: Codec, s: State, p: Proc)
    requires Inv(s) && Enabled(c, s, CompareAside(p))
    ensures Inv(Step(c, s, CompareAside(p)))
  {
    assert Facts(s, p);
    QuietKeeps(s, Step(c, s, CompareAside(p)), p);
  }

  /** There is nothing to rename: someone else cleared it. */
  lemma GoneKeeps(c: Codec, s: State, p: Proc)
    requires Inv(s) && Enabled(c, s, RenameAside(p)) && s.guard.None?
    ensures Inv(Step(c, s, RenameAside(p)))
  {
    assert Facts(s, p);
    QuietKeeps(s, Step(c, s, RenameAside(p)), p);
  }

  lemma TickKeeps(c: Codec, s: State, d: nat)
    requires Inv(s)
    ensures Inv(Step(c, s, Tick(d)))
  {
    var t := Step(c, s, Tick(d));
    forall r | r in t.procs
      ensures Facts(t, r)
    {
      assert Facts(s, r);
      forall g: FileId | InWindow(s, g)
        ensures InWindow(t, g)
      {
        var q :| q in s.procs && MovedOf(PcOf(s, q)) == Some(g);
        assert q in t.procs && MovedOf(PcOf(t, q)) == Some(g);
      }
    }
  }

  // ---- Steps on the guard path ----

  /** Taking the free guard, outside every rename window. */
  lemma TakeKeeps(c: Codec, s: State, p: Proc)
    requires Inv(s) && Enabled(c, s, TryGuard(p)) && s.guard.None? && OutsideWindow(s, TryGuard(p))
    ensures Inv(Step(c, s, TryGuard(p)))
  {
    var t := Step(c, s, TryGuard(p));
    forall r | r in t.procs
      ensures Facts(t, r)
    {
      assert Facts(s, r);
      assert MovedOf(PcOf(s, r)).None?;
    }
  }

  /** Renaming whatever is at the guard path. */
  lemma RenameKeeps(c: Codec, s: State, p: Proc)
    requires Inv(s) && Enabled(c, s, RenameAside(p)) && s.guard.Some?
    ensures Inv(Step(c, s, RenameAside(p)))
  {
    var t := Step(c, s, RenameAside(p));
    var m := s.guard.value;
    assert Facts(s, p) && PcOf(t, p).moved == m;
    forall r | r in t.procs
      ensures Facts(t, r)
    {
      assert Facts(s, r);
      if GuardOf(PcOf(s, r)).Some? && At(s, r) {
        assert !InWindow(s, GuardOf(PcOf(s, r)).value) by { NoWindow(s, GuardOf(PcOf(s, r)).value); }
        assert GuardOf(PcOf(s, r)) == Some(m) && Behind(s, m);
        assert MovedOf(PcOf(t, p)) == Some(m);
      }
      NoneMoved(s, r);
    }
  }

  /** Putting back a file that was not the judged one. */
  lemma LinkKeeps(c: Codec, s: State, p: Proc)
    requires Inv(s) && Enabled(c, s, LinkBack(p))
    ensures Inv(Step(c, s, LinkBack(p)))
  {
    var t := Step(c, s, LinkBack(p));
    assert Facts(s, p);
    forall r | r in t.procs
      ensures Facts(t, r)
    {
      assert Facts(s, r);
      if GuardOf(PcOf(s, r)).Some? && At(s, r) {
        var q :| q in s.procs && MovedOf(PcOf(s, q)) == GuardOf(PcOf(s, r));
        assert q == p;
      }
    }
  }

  lemma RemoveKeeps(c: Codec, s: State, p: Proc)
    requires Inv(s) && Enabled(c, s, RemoveGuard(p))
    ensures Inv(Step(c, s, RemoveGuard(p)))
  {
    var t := Step(c, s, RemoveGuard(p));
    GuardsExclude(s);
    assert Facts(s, p);
    forall r | r in t.procs
      ensures Facts(t, r)
    {
      assert Facts(s, r);
    }
  }

  /** A guard that could not be stat'ed is removed by its path. */
  lemma CleanupKeeps(c: Codec, s: State, p: Proc)
    requires Inv(s) && Enabled(c, s, GuardCleanup(p))
    ensures Inv(Step(c, s, GuardCleanup(p)))
  {
    var t := Step(c, s, GuardCleanup(p));
    GuardsExclude(s);
    assert Facts(s, p);
    forall r | r in t.procs
      ensures Facts(t, r)
    {
      assert Facts(s, r);
    }
  }

  /** A renamed file that could not be stat'ed goes back, even the judged one. */
  lemma StatFailsKeeps(c: Codec, s: State, p: Proc)
    requires Inv(s) && Enabled(c, s, AsideStatFails(p)) && OutsideWindow(s, AsideStatFails(p))
    ensures Inv(Step(c, s, AsideStatFails(p)))
  {
    var t := Step(c, s, AsideStatFails(p));
    assert Facts(s, p);
    if PcOf(s, p).moved != PcOf(s, p).gid {
      QuietKeeps(s, t, p);
    } else {
      forall r | r in t.procs
        ensures Facts(t, r)
      {
        assert Facts(s, r);
        assert MovedOf(PcOf(s, r)).None?;
      }
    }
  }

  // ---- The whole lock ----

  ghost predicate Safe(c: Codec, s: State) {
    LockSafety.Inv(c, s) && Inv(s)
  }

  /** The timing assumptions: holders are prompt, a live process leaves its guard within 5 seconds of making it (as
      far as anyone looks), and no guard is made in a rename window. */
  ghost predicate Timely(s: State, a: Action) {
    PromptHolders(s) && PromptGuards(s) && OutsideWindow(s, a)
  }

  lemma GuardStepKeeps(c: Codec, s: State, a: Action)
    requires Safe(c, s) && PromptGuards(s) && OutsideWindow(s, a) && Enabled(c, s, a)
    ensures Inv(Step(c, s, a))
  {
    hide Inv, LockSafety.Inv, Step, Enabled, PromptGuards, OutsideWindow;
    match a
    case Tick(d) => TickKeeps(c, s, d);
    case Die(p) => ErrorKeeps(c, s, p, a);
    case TryCreate(p, startedAt) => CreateKeeps(c, s, p, startedAt);
    case WriteMore(p, n) => WriteKeeps(c, s, p, n);
    case CreateDone(p) => AcquireKeeps(c, s, p, a);
    case CreateFails(p) => AcquireKeeps(c, s, p, a);
    case CreateCleanup(p) => AcquireKeeps(c, s, p, a);
    case OpenLock(p) => AcquireKeeps(c, s, p, a);
    case ReadLock(p) => AcquireKeeps(c, s, p, a);
    case Judge(p, processAlive) => JudgeKeeps(c, s, p, processAlive);
    case BeginUnlock(p) => OwnerKeeps(c, s, p, a);
    case TryGuard(p) => if s.guard.Some? { LookKeeps(c, s, p); } else { TakeKeeps(c, s, p); }
    case GiveUpGuard(p) => OwnerKeeps(c, s, p, a);
    case CheckGuardAge(p) => AgeKeeps(c, s, p);
    case RenameAside(p) => if s.guard.Some? { RenameKeeps(c, s, p); } else { GoneKeeps(c, s, p); }
    case CompareAside(p) => CompareKeeps(c, s, p);
    case LinkBack(p) => LinkKeeps(c, s, p);
    case DropName(p) => ErrorKeeps(c, s, p, a);
    case OpenGuarded(p) => SectionKeeps(c, s, p, a);
    case CompareGuarded(p) => CompareLockKeeps(c, s, p, a);
    case RemoveGuarded(p) => LeaveKeeps(c, s, p, a);
    case CheckRelease(p) => LeaveKeeps(c, s, p, a);
    case RemoveGuard(p) => RemoveKeeps(c, s, p);
    case AsideStatFails(p) => StatFailsKeeps(c, s, p);
    case GuardStatFails(p) => FailKeeps(c, s, p);
    case GuardCleanup(p) => CleanupKeeps(c, s, p);
    case OpenFallback(p) => FallbackKeeps(c, s, p, a);
    case CompareFallback(p) => CompareFallbackKeeps(c, s, p, a);
    case RemoveFallback(p) => OwnerKeeps(c, s, p, a);
    case IoError(p) => ErrorKeeps(c, s, p, a);
  }

  lemma {:induction false} RunSafe(c: Codec, s0: State, acts: seq<Action>, tr: seq<State>, k: nat)
    requires Sound(c) && Init(s0) && IsRun(c, s0, acts, tr) && k < |tr|
    requires forall i | 0 <= i < k :: Timely(tr[i], acts[i])
    ensures Safe(c, tr[k])
  {
    hide Inv, LockSafety.Inv, Init, Enabled, Step, PromptHolders, PromptGuards, OutsideWindow, Sound;
    if k == 0 {
      LockSafety.InitInv(c, s0);
      InitInv(s0);
    } else {
      RunSafe(c, s0, acts, tr, k - 1);
      assert Timely(tr[k - 1], acts[k - 1]);
      GuardsExclude(tr[k - 1]);
      LockSafety.StepKeeps(c, tr[k - 1], acts[k - 1]);
      GuardStepKeeps(c, tr[k - 1], acts[k - 1]);
    }
  }

  /** Mutual exclusion over whole runs: in every interleaving of any number of processes that create, reclaim, clear
      guards, unlock, fail and die - inside the guarded section too - at most one live process has the lock and the
      lock path names its own file. */
  lemma LockExcludes(c: Codec, s0: State, acts: seq<Action>, tr: seq<State>)
    requires Sound(c) && Init(s0) && IsRun(c, s0, acts, tr)
    requires forall i | 0 <= i < |acts| :: Timely(tr[i], acts[i])
    ensures forall s | s in tr :: MutualExclusion(s)
  {
    hide IsRun, Init, Timely, Sound, MutualExclusion, LockSafety.Inv, Inv;
    forall s | s in tr
      ensures MutualExclusion(s)
    {
      var k :| 0 <= k < |tr| && tr[k] == s;
      assert k <= |acts| by { RunLength(c, s0, acts, tr); }
      RunSafe(c, s0, acts, tr, k);
      LockSafety.InvExcludes(c, s);
    }
  }

  lemma RunLength(c: Codec, s0: State, acts: seq<Action>, tr: seq<State>)
    requires IsRun(c, s0, acts, tr)
    ensures |tr| == |acts| + 1
  {
  }

  // ---- When no guard goes stale, nothing else has to be assumed ----

  /** Nobody is clearing a guard. */
  ghost predicate NoClearing(s: State) {
    forall p | p in s.procs ::
      !(PcOf(s, p).Clearing? || PcOf(s, p).Aside? || PcOf(s, p).PutBack? || PcOf(s, p).DropAside?)
  }

  lemma NoWindowOpens(s: State, a: Action)
    requires NoClearing(s) && NoStaleGuard(s)
    ensures OutsideWindow(s, a) && PromptGuards(s)
  {
  }

  /** Whose move it is, and whether it is a look at the guard. */
  lemma NoClearingStep(c: Codec, s: State, a: Action)
    requires NoClearing(s) && NoStaleGuard(s) && Enabled(c, s, a)
    ensures NoClearing(Step(c, s, a))
  {
    if a.CheckGuardAge? {
      assert NoGuard(PcOf(s, a.p).why) == PcOf(Step(c, s, a), a.p);
    } else if a.Tick? || a.Die? {
    } else {
      assert Step(c, s, a).procs == s.procs[a.p := Step(c, s, a).procs[a.p]];
    }
  }

  lemma {:induction false} NeverClearing(c: Codec, s0: State, acts: seq<Action>, tr: seq<State>, k: nat)
    requires Init(s0) && IsRun(c, s0, acts, tr) && k < |tr|
    requires forall i | 0 <= i < k :: NoStaleGuard(tr[i])
    ensures NoClearing(tr[k])
  {
    hide NoStaleGuard, Enabled, Step;
    if k > 0 {
      NeverClearing(c, s0, acts, tr, k - 1);
      NoClearingStep(c, tr[k - 1], acts[k - 1]);
    }
  }

  lemma NoStaleGuardSuffices(c: Codec, s0: State, acts: seq<Action>, tr: seq<State>)
    requires Sound(c) && Init(s0) && IsRun(c, s0, acts, tr)
    requires forall i | 0 <= i < |acts| :: PromptHolders(tr[i]) && NoStaleGuard(tr[i])
    ensures forall s | s in tr :: MutualExclusion(s)
  {
    forall i | 0 <= i < |acts|
      ensures Timely(tr[i], acts[i])
    {
      NeverClearing(c, s0, acts, tr, i);
      NoWindowOpens(tr[i], acts[i]);
    }
    hide NoStaleGuard, Enabled, Step;
    LockExcludes(c, s0, acts, tr);
  }
}

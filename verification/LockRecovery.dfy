/** The lock does not stay behind: a process that runs by itself takes an abandoned lock over, and a holder that unlocks
    gives it back, also when a process that died left a guard. */
module LockRecovery {
  import opened Basics
  import opened LockProtocol

  /** The process that takes a step. */
  predicate By(p: Proc, a: Action) {
    !a.Tick? && a.p == p
  }

  /** Steps of process `p` alone lead from `s` to `t`. */
  ghost predicate Leads(c: Codec, p: Proc, s: State, acts: seq<Action>, t: State)
    decreases |acts|
  {
    if acts == [] then s == t
    else By(p, acts[0]) && Enabled(c, s, acts[0]) && Leads(c, p, Step(c, s, acts[0]), acts[1..], t)
  }

  lemma {:induction false} LeadsOn(c: Codec, p: Proc, s: State, xs: seq<Action>, t: State, ys: seq<Action>, u: State)
    requires Leads(c, p, s, xs, t) && Leads(c, p, t, ys, u)
    ensures Leads(c, p, s, xs + ys, u)
    decreases |xs|
  {
    hide Enabled, Step;
    if xs == [] {
      assert xs + ys == ys;
    } else {
      LeadsOn(c, p, Step(c, s, xs[0]), xs[1..], t, ys, u);
      assert (xs + ys)[1..] == xs[1..] + ys;
    }
  }

  /** It is a run like any other. */
  lemma {:induction false} LeadsIsRun(c: Codec, p: Proc, s: State, acts: seq<Action>, t: State) returns (tr: seq<State>)
    requires Leads(c, p, s, acts, t)
    ensures IsRun(c, s, acts, tr) && tr[|acts|] == t
    decreases |acts|
  {
    hide Enabled, Step;
    if acts == [] {
      tr := [s];
    } else {
      var rest := LeadsIsRun(c, p, Step(c, s, acts[0]), acts[1..], t);
      tr := [s] + rest;
    }
  }

  lemma One(c: Codec, p: Proc, s: State, a: Action, t: State)
    requires By(p, a) && Enabled(c, s, a) && Step(c, s, a) == t
    ensures Leads(c, p, s, [a], t)
  {
    assert [a][1..] == [];
  }

  lemma GotoAgain(s: State, p: Proc, x: Pc, y: Pc)
    requires p in s.procs
    ensures Goto(Goto(s, p, x), p, y) == Goto(s, p, y)
  {
    assert s.procs[p := s.procs[p].(pc := x)][p := s.procs[p].(pc := y)] == s.procs[p := s.procs[p].(pc := y)];
  }

  /** Four steps in a row. */
  lemma Four(c: Codec, p: Proc, s: State, a1: Action, s1: State, a2: Action, s2: State, a3: Action, s3: State,
             a4: Action, s4: State)
    requires Leads(c, p, s, [a1], s1) && Leads(c, p, s1, [a2], s2) && Leads(c, p, s2, [a3], s3)
    requires Leads(c, p, s3, [a4], s4)
    ensures Leads(c, p, s, [a1, a2, a3, a4], s4)
  {
    hide Enabled, Step, Leads;
    LeadsOn(c, p, s, [a1], s1, [a2], s2);
    LeadsOn(c, p, s2, [a3], s3, [a4], s4);
    LeadsOn(c, p, s, [a1] + [a2], s2, [a3] + [a4], s4);
    assert [a1] + [a2] + ([a3] + [a4]) == [a1, a2, a3, a4];
  }

  // ---- What a waiting process finds ----

  /** Nobody is going to release the lock any more, as far as process `p` can tell: the file is torn and over 30 s old,
      holds what no process writes, or records a holder that started over 10 min ago or - on the host of `p` - is not
      running. */
  ghost predicate Abandoned(c: Codec, s: State, p: Proc, id: FileId)
    requires p in s.procs && id in s.files
  {
    var f := s.files[id]; var i := c.decode(f.content);
    if !c.valid(f.content) then s.now - f.mtime > UNPARSABLE_AGE
    else if i.None? then true
    else i.value.pid <= 0 || s.now - i.value.startedAt > STALE_AGE
         || (i.value.host == s.procs[p].host && !RecordsLive(c, s, f.content, s.procs[p].host))
  }

  lemma GotoRecordsLive(c: Codec, s: State, p: Proc, pc: Pc, bytes: string, host: string)
    requires p in s.procs
    ensures RecordsLive(c, Goto(s, p, pc), bytes, host) == RecordsLive(c, s, bytes, host)
  {
    var t := Goto(s, p, pc);
    assert forall q :: At(t, q) == At(s, q)
                       && (q in s.procs ==> t.procs[q].pid == s.procs[q].pid && t.procs[q].host == s.procs[q].host);
  }

  /** It judges an abandoned lock stale and goes for the guard. */
  lemma Judging(c: Codec, s: State, p: Proc, id: FileId) returns (acts: seq<Action>)
    requires At(s, p) && PcOf(s, p).Idle? && s.lock == Some(id) && id in s.files && Abandoned(c, s, p, id)
    ensures Leads(c, p, s, acts, Goto(s, p, Wanting(Reclaim(id, s.files[id].content, s.files[id].mtime))))
  {
    var f := s.files[id];
    var s1, s2, s3 := Goto(s, p, Blocked), Goto(s, p, Opened(id, f.mtime)), Goto(s, p, HasRead(id, f.content, f.mtime));
    var s4 := Goto(s, p, Wanting(Reclaim(id, f.content, f.mtime)));
    var alive := RecordsLive(c, s, f.content, s.procs[p].host);
    GotoRecordsLive(c, s, p, HasRead(id, f.content, f.mtime), f.content, s.procs[p].host);
    GotoAgain(s, p, Blocked, Opened(id, f.mtime));
    GotoAgain(s, p, Opened(id, f.mtime), HasRead(id, f.content, f.mtime));
    GotoAgain(s, p, HasRead(id, f.content, f.mtime), Wanting(Reclaim(id, f.content, f.mtime)));
    One(c, p, s, TryCreate(p, s.now), s1);
    One(c, p, s1, OpenLock(p), s2);
    One(c, p, s2, ReadLock(p), s3);
    assert JudgeStale(c, f.content, f.mtime, s.procs[p].host, s.now, alive) by {
      hide RecordsLive;
    }
    hide RecordsLive, JudgeStale;
    One(c, p, s3, Judge(p, alive), s4);
    hide Leads, Enabled, Step;
    Four(c, p, s, TryCreate(p, s.now), s1, OpenLock(p), s2, ReadLock(p), s3, Judge(p, alive), s4);
    acts := [TryCreate(p, s.now), OpenLock(p), ReadLock(p), Judge(p, alive)];
  }

  // ---- Behind the guard ----

  /** The guard path is free, or names a file over 5 s old. */
  ghost predicate GuardStale(s: State) {
    s.guard.Some? ==> s.guard.value in s.files && s.now - s.files[s.guard.value].mtime > GUARD_STALE_AGE
  }

  /** It finds the guard stale. */
  lemma JudgingGuard(c: Codec, s: State, p: Proc, why: Why) returns (acts: seq<Action>)
    requires At(s, p) && PcOf(s, p) == Wanting(why) && s.guard.Some? && GuardStale(s)
    ensures var g := s.guard.value; Leads(c, p, s, acts, Goto(s, p, Clearing(why, g, s.files[g].mtime)))
  {
    var g := s.guard.value;
    var m := s.files[g].mtime;
    var s1, s2 := Goto(s, p, Statted(why, g, m)), Goto(s, p, Clearing(why, g, m));
    GotoAgain(s, p, Statted(why, g, m), Clearing(why, g, m));
    One(c, p, s, TryGuard(p), s1);
    One(c, p, s1, CheckGuardAge(p), s2);
    hide Leads, Enabled, Step, Goto;
    LeadsOn(c, p, s, [TryGuard(p)], s1, [CheckGuardAge(p)], s2);
    acts := [TryGuard(p)] + [CheckGuardAge(p)];
  }

  /** It moves that guard aside, finds it to be the one it judged, and drops it. */
  lemma DroppingGuard(c: Codec, s: State, p: Proc, why: Why, g: FileId) returns (acts: seq<Action>)
    requires g in s.files && s.guard == Some(g) && At(s, p) && PcOf(s, p) == Clearing(why, g, s.files[g].mtime)
    ensures Leads(c, p, s, acts, Goto(s, p, Wanting(why)).(guard := None))
  {
    var m := s.files[g].mtime;
    var b := s.(guard := None);
    var s1, s2, t := Goto(b, p, Aside(why, g, m, g)), Goto(b, p, DropAside(why, true)), Goto(b, p, Wanting(why));
    GotoAgain(b, p, Aside(why, g, m, g), DropAside(why, true));
    GotoAgain(b, p, DropAside(why, true), Wanting(why));
    One(c, p, s, RenameAside(p), s1);
    One(c, p, s1, CompareAside(p), s2);
    One(c, p, s2, DropName(p), t);
    hide Leads, Enabled, Step;
    LeadsOn(c, p, s, [RenameAside(p)], s1, [CompareAside(p)], s2);
    LeadsOn(c, p, s, [RenameAside(p)] + [CompareAside(p)], s2, [DropName(p)], t);
    acts := [RenameAside(p)] + [CompareAside(p)] + [DropName(p)];
  }

  lemma ClearingGuard(c: Codec, s: State, p: Proc, why: Why) returns (acts: seq<Action>)
    requires At(s, p) && PcOf(s, p) == Wanting(why) && s.guard.Some? && GuardStale(s)
    ensures Leads(c, p, s, acts, s.(guard := None))
  {
    hide Leads;
    var g := s.guard.value;
    var pc := Clearing(why, g, s.files[g].mtime);
    var judged := Goto(s, p, pc);
    var first := JudgingGuard(c, s, p, why);
    var second := DroppingGuard(c, judged, p, why, g);
    GotoAgain(s, p, pc, Wanting(why));
    assert s.procs[p := s.procs[p].(pc := Wanting(why))] == s.procs;
    LeadsOn(c, p, s, first, judged, second, s.(guard := None));
    acts := first + second;
  }

  /** The state once process `p` has made its guard. */
  function WithGuard(s: State, p: Proc, why: Why): State
    requires p in s.procs
  {
    Goto(s, p, Guarded(why, s.next, s.now)).(guard := Some(s.next), files := s.files[s.next := File(p, "", s.now)],
                                             next := s.next + 1)
  }

  /** Behind its guard it finds the lock file as it wants it. */
  lemma FindingLock(c: Codec, s: State, p: Proc, why: Why, id: FileId) returns (acts: seq<Action>)
    requires At(s, p) && s.guard.None? && PcOf(s, p) == Wanting(why)
    requires s.lock == Some(id) && id in s.files && id != s.next
    requires Unchanged(c, why, id, s.files[id].content, s.files[id].mtime)
    ensures Leads(c, p, s, acts, Goto(WithGuard(s, p, why), p, Matched(why, s.next, s.now)))
  {
    var g, m := s.next, s.now;
    var opened_ := GuardedOpened(why, g, m, id, s.files[id].mtime);
    var w := WithGuard(s, p, why);
    var w1, w2 := Goto(w, p, opened_), Goto(w, p, Matched(why, g, m));
    GotoAgain(w, p, opened_, Matched(why, g, m));
    One(c, p, s, TryGuard(p), w);
    One(c, p, w, OpenGuarded(p), w1);
    hide Unchanged;
    One(c, p, w1, CompareGuarded(p), w2);
    hide Leads, Enabled, Step, Goto, WithGuard;
    LeadsOn(c, p, s, [TryGuard(p)], w, [OpenGuarded(p)], w1);
    LeadsOn(c, p, s, [TryGuard(p)] + [OpenGuarded(p)], w1, [CompareGuarded(p)], w2);
    acts := [TryGuard(p)] + [OpenGuarded(p)] + [CompareGuarded(p)];
  }

  /** It removes the lock file, and gives its guard back. */
  lemma RemovingLock(c: Codec, s: State, p: Proc, why: Why, g: FileId) returns (acts: seq<Action>)
    requires g in s.files && s.guard == Some(g) && At(s, p) && PcOf(s, p) == Matched(why, g, s.files[g].mtime)
    ensures Leads(c, p, s, acts, Goto(s, p, Idle).(lock := None, guard := None))
  {
    var m := s.files[g].mtime;
    var n := s.(lock := None);
    var s1, s2 := Goto(n, p, Releasing(why, g, m)), Goto(n, p, ReleaseRemove(why, g));
    var t := Goto(n, p, Idle).(guard := None);
    GotoAgain(n, p, Releasing(why, g, m), ReleaseRemove(why, g));
    GotoAgain(n, p, ReleaseRemove(why, g), Idle);
    One(c, p, s, RemoveGuarded(p), s1);
    One(c, p, s1, CheckRelease(p), s2);
    One(c, p, s2, RemoveGuard(p), t);
    hide Leads, Enabled, Step;
    LeadsOn(c, p, s, [RemoveGuarded(p)], s1, [CheckRelease(p)], s2);
    LeadsOn(c, p, s, [RemoveGuarded(p)] + [CheckRelease(p)], s2, [RemoveGuard(p)], t);
    acts := [RemoveGuarded(p)] + [CheckRelease(p)] + [RemoveGuard(p)];
  }

  /** A guard that is not stale is respected: nothing changes, a process that wanted to reclaim the lock ends its round,
      and one that wants to unlock goes on waiting. */
  lemma FreshGuardIsRespected(c: Codec, s: State, p: Proc, why: Why) returns (acts: seq<Action>)
    requires At(s, p) && PcOf(s, p) == Wanting(why) && s.guard.Some? && s.guard.value in s.files && !GuardStale(s)
    ensures Leads(c, p, s, acts, if why.Reclaim? then Goto(s, p, Idle) else s)
  {
    var g := s.guard.value;
    var statted := Statted(why, g, s.files[g].mtime);
    var end := if why.Reclaim? then Idle else Wanting(why);
    var s1, t := Goto(s, p, statted), Goto(s, p, end);
    GotoAgain(s, p, statted, end);
    assert why.Unlock? ==> s.procs[p := s.procs[p].(pc := end)] == s.procs;
    One(c, p, s, TryGuard(p), s1);
    One(c, p, s1, CheckGuardAge(p), t);
    hide Leads, Enabled, Step;
    LeadsOn(c, p, s, [TryGuard(p)], s1, [CheckGuardAge(p)], t);
    acts := [TryGuard(p)] + [CheckGuardAge(p)];
  }

  // ---- Both ends of an acquisition ----

  /** A free lock is created, written and held. */
  lemma Acquiring(c: Codec, s: State, p: Proc) returns (acts: seq<Action>, t: State)
    requires At(s, p) && PcOf(s, p).Idle? && s.lock.None?
    ensures Leads(c, p, s, acts, t) && HasLock(c, t, p) && t.now == s.now
  {
    var l := s.procs[p];
    var own := Own(s.next, LockInfo(l.pid, l.host, l.command, s.now));
    var data := Data(c, own.info);
    var s1 := Goto(s, p, Creating(own)).(lock := Some(s.next), files := s.files[s.next := File(p, "", s.now)],
                                         next := s.next + 1);
    var s2 := s1.(files := s1.files[s.next := File(p, data, s.now)]);
    t := Goto(s2, p, Holding(own));
    assert data[..|data|] == data;
    One(c, p, s, TryCreate(p, s.now), s1);
    One(c, p, s1, WriteMore(p, |data|), s2);
    One(c, p, s2, CreateDone(p), t);
    hide Leads, Enabled, Step;
    LeadsOn(c, p, s, [TryCreate(p, s.now)], s1, [WriteMore(p, |data|)], s2);
    LeadsOn(c, p, s, [TryCreate(p, s.now)] + [WriteMore(p, |data|)], s2, [CreateDone(p)], t);
    acts := [TryCreate(p, s.now)] + [WriteMore(p, |data|)] + [CreateDone(p)];
  }

  /** Process `p` holds the lock: the lock path names its own file with its complete record. */
  ghost predicate HasLock(c: Codec, s: State, p: Proc) {
    && At(s, p) && PcOf(s, p).Holding? && s.lock == Some(PcOf(s, p).own.id) && s.lock.value in s.files
    && s.files[s.lock.value].content == Data(c, PcOf(s, p).own.info)
  }

  /** From wanting the guard to the lock path being free. */
  lemma Freeing(c: Codec, s: State, p: Proc, why: Why, id: FileId) returns (acts: seq<Action>, t: State)
    requires At(s, p) && PcOf(s, p) == Wanting(why) && GuardStale(s)
    requires s.lock == Some(id) && id in s.files && id != s.next
    requires Unchanged(c, why, id, s.files[id].content, s.files[id].mtime)
    ensures Leads(c, p, s, acts, t) && At(t, p) && PcOf(t, p).Idle? && t.lock.None? && t.guard.None? && t.now == s.now
  {
    hide Leads, Unchanged;
    var b := s.(guard := None);
    var found := Goto(WithGuard(b, p, why), p, Matched(why, b.next, b.now));
    var finding := FindingLock(c, b, p, why, id);
    var removing := RemovingLock(c, found, p, why, b.next);
    t := Goto(found, p, Idle).(lock := None, guard := None);
    LeadsOn(c, p, b, finding, found, removing, t);
    acts := finding + removing;
    if s.guard.Some? {
      var first := ClearingGuard(c, s, p, why);
      LeadsOn(c, p, s, first, b, acts, t);
      acts := first + acts;
    } else {
      assert b == s;
    }
  }

  /** A process that runs by itself takes over an abandoned lock: whatever died holding it, and even if it died behind
      the guard, the process finds it stale, removes it behind a guard of its own and ends holding the lock. */
  lemma AbandonedLockIsTaken(c: Codec, s: State, p: Proc, id: FileId) returns (acts: seq<Action>, tr: seq<State>)
    requires At(s, p) && PcOf(s, p).Idle? && s.lock == Some(id) && id in s.files && id != s.next
    requires Abandoned(c, s, p, id) && GuardStale(s)
    ensures IsRun(c, s, acts, tr) && (forall a | a in acts :: By(p, a))
    ensures HasLock(c, tr[|acts|], p) && tr[|acts|].now == s.now
  {
    hide Leads, Abandoned;
    var f := s.files[id];
    var why := Reclaim(id, f.content, f.mtime);
    var judged := Goto(s, p, Wanting(why));
    var first := Judging(c, s, p, id);
    var second, free := Freeing(c, judged, p, why, id);
    var third, t := Acquiring(c, free, p);
    LeadsOn(c, p, s, first, judged, second, free);
    LeadsOn(c, p, s, first + second, free, third, t);
    acts := first + second + third;
    hide HasLock;
    tr := LeadsIsRun(c, p, s, acts, t);
    AllBy(c, p, s, acts, t);
  }

  /** A holder that runs by itself gives the lock back. */
  lemma UnlockFrees(c: Codec, s: State, p: Proc) returns (acts: seq<Action>, tr: seq<State>)
    requires HasLock(c, s, p) && s.lock.value != s.next && GuardStale(s)
    ensures IsRun(c, s, acts, tr) && (forall a | a in acts :: By(p, a))
    ensures var t := tr[|acts|]; At(t, p) && PcOf(t, p).Idle? && t.lock.None? && t.guard.None?
  {
    var why := Unlock(PcOf(s, p).own);
    var u := Goto(s, p, Wanting(why));
    One(c, p, s, BeginUnlock(p), u);
    hide Leads;
    var rest, t := Freeing(c, u, p, why, s.lock.value);
    LeadsOn(c, p, s, [BeginUnlock(p)], u, rest, t);
    acts := [BeginUnlock(p)] + rest;
    tr := LeadsIsRun(c, p, s, acts, t);
    AllBy(c, p, s, acts, t);
  }

  lemma GivingUp(c: Codec, s: State, p: Proc) returns (acts: seq<Action>)
    requires HasLock(c, s, p)
    ensures Leads(c, p, s, acts, Goto(s, p, Fallback(PcOf(s, p).own)))
  {
    var own := PcOf(s, p).own;
    var s1, s2 := Goto(s, p, Wanting(Unlock(own))), Goto(s, p, Fallback(own));
    GotoAgain(s, p, Wanting(Unlock(own)), Fallback(own));
    One(c, p, s, BeginUnlock(p), s1);
    One(c, p, s1, GiveUpGuard(p), s2);
    hide Leads, Enabled, Step;
    LeadsOn(c, p, s, [BeginUnlock(p)], s1, [GiveUpGuard(p)], s2);
    acts := [BeginUnlock(p)] + [GiveUpGuard(p)];
  }

  lemma RemovingOwn(c: Codec, s: State, p: Proc, own: Own) returns (acts: seq<Action>)
    requires At(s, p) && PcOf(s, p) == Fallback(own) && s.lock == Some(own.id) && own.id in s.files
    requires s.files[own.id].content == Data(c, own.info)
    ensures Leads(c, p, s, acts, Goto(s, p, Idle).(lock := None))
  {
    var s1, s2 := Goto(s, p, FallbackOpened(own, own.id)), Goto(s, p, FallbackMatched(own));
    var t := Goto(s, p, Idle).(lock := None);
    GotoAgain(s, p, FallbackOpened(own, own.id), FallbackMatched(own));
    GotoAgain(s, p, FallbackMatched(own), Idle);
    One(c, p, s, OpenFallback(p), s1);
    One(c, p, s1, CompareFallback(p), s2);
    One(c, p, s2, RemoveFallback(p), t);
    hide Leads, Enabled, Step;
    LeadsOn(c, p, s, [OpenFallback(p)], s1, [CompareFallback(p)], s2);
    LeadsOn(c, p, s, [OpenFallback(p)] + [CompareFallback(p)], s2, [RemoveFallback(p)], t);
    acts := [OpenFallback(p)] + [CompareFallback(p)] + [RemoveFallback(p)];
  }

  /** A holder that gives up on the guard checks that the lock is its own and removes it without the guard. */
  lemma FallbackFrees(c: Codec, s: State, p: Proc) returns (acts: seq<Action>)
    requires HasLock(c, s, p)
    ensures Leads(c, p, s, acts, Goto(s, p, Idle).(lock := None))
  {
    hide Leads;
    var own := PcOf(s, p).own;
    var mid := Goto(s, p, Fallback(own));
    var first := GivingUp(c, s, p);
    var second := RemovingOwn(c, mid, p, own);
    GotoAgain(s, p, Fallback(own), Idle);
    LeadsOn(c, p, s, first, mid, second, Goto(s, p, Idle).(lock := None));
    acts := first + second;
  }

  /** A guard that a clearer moved aside by mistake goes back, when no other was made meanwhile. */
  lemma WrongGuardGoesBack(c: Codec, s: State, p: Proc, why: Why, gid: FileId, m: int, moved: FileId)
    returns (acts: seq<Action>)
    requires At(s, p) && PcOf(s, p) == Aside(why, gid, m, moved) && moved in s.files && s.guard.None?
    requires moved != gid || s.files[moved].mtime != m
    ensures Leads(c, p, s, acts, Goto(s, p, if why.Reclaim? then Idle else Wanting(why)).(guard := Some(moved)))
  {
    var b := s.(guard := Some(moved));
    var end := if why.Reclaim? then Idle else Wanting(why);
    var s1, s2, t := Goto(s, p, PutBack(why, moved)), Goto(b, p, DropAside(why, false)), Goto(b, p, end);
    GotoAgain(b, p, PutBack(why, moved), DropAside(why, false));
    GotoAgain(b, p, DropAside(why, false), end);
    One(c, p, s, CompareAside(p), s1);
    One(c, p, s1, LinkBack(p), s2);
    One(c, p, s2, DropName(p), t);
    hide Leads, Enabled, Step;
    LeadsOn(c, p, s, [CompareAside(p)], s1, [LinkBack(p)], s2);
    LeadsOn(c, p, s, [CompareAside(p)] + [LinkBack(p)], s2, [DropName(p)], t);
    acts := [CompareAside(p)] + [LinkBack(p)] + [DropName(p)];
  }

  /** Who dies is gone, and nobody else is: no step revives a process or ends another one. */
  lemma DeathIsFinal(c: Codec, s: State, a: Action, q: Proc)
    requires Enabled(c, s, a)
    ensures At(Step(c, s, a), q) <==> At(s, q) && a != Die(q)
  {
    hide JudgeStale, Unchanged, RecordsLive;
  }

  lemma {:induction false} AllBy(c: Codec, p: Proc, s: State, acts: seq<Action>, t: State)
    requires Leads(c, p, s, acts, t)
    ensures forall a | a in acts :: By(p, a)
    decreases |acts|
  {
    hide Enabled, Step;
    if acts != [] {
      AllBy(c, p, Step(c, s, acts[0]), acts[1..], t);
    }
  }
}

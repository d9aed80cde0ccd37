/** Why no guard may be made in a rename window: a run in which two processes end up holding the lock at once. A
    process of the past died behind the guard, and its guard is old. Three live processes, all prompt, wait for the
    lock. Process 0 and process 1 both judge the old guard stale. Process 0 clears it and takes a fresh guard;
    process 1, acting on its earlier judgement, moves that fresh guard aside, and in that window process 2 takes the
    guard too. Both compare, both remove: the second removal deletes the lock the first one led to. */
module LockStaleGuard {
  import opened Basics
  import opened LockProtocol

  const NOW := 40_000
  const STALE := File(99, "", 0)
  const OLDGUARD := File(99, "", 30_000)
  const R := Reclaim(0, "", 0)

  function InfoOf(p: Proc): LockInfo {
    LockInfo(10 + p, "host", "push", NOW)
  }

  function Proc0(p: Proc, pc: Pc): Local {
    Local(true, 10 + p, "host", "push", pc)
  }

  /** The files once `next` are made; the last lock file is empty until its record is written. */
  function Files(c: Codec, next: nat, written: bool): map<FileId, File> {
    if next == 2 then map[0 := STALE, 1 := OLDGUARD]
    else if next == 3 then map[0 := STALE, 1 := OLDGUARD, 2 := File(0, "", NOW)]
    else if next == 4 then map[0 := STALE, 1 := OLDGUARD, 2 := File(0, "", NOW), 3 := File(2, "", NOW)]
    else if next == 5 then
      map[0 := STALE, 1 := OLDGUARD, 2 := File(0, "", NOW), 3 := File(2, "", NOW),
          4 := File(0, if written then Data(c, InfoOf(0)) else "", NOW)]
    else
      map[0 := STALE, 1 := OLDGUARD, 2 := File(0, "", NOW), 3 := File(2, "", NOW),
          4 := File(0, Data(c, InfoOf(0)), NOW), 5 := File(2, if written then Data(c, InfoOf(2)) else "", NOW)]
  }

  /** What is in them. */
  lemma FilesAre(c: Codec, next: nat, written: bool)
    requires 2 <= next <= 6
    ensures var fs := Files(c, next, written);
      && 0 in fs && fs[0] == STALE && 1 in fs && fs[1] == OLDGUARD
      && (next > 2 ==> 2 in fs && fs[2] == File(0, "", NOW)) && (next > 3 ==> 3 in fs && fs[3] == File(2, "", NOW))
      && (next > 4 ==> 4 in fs && fs[4] == File(0, if next > 5 || written then Data(c, InfoOf(0)) else "", NOW))
      && (next > 5 ==> 5 in fs && fs[5] == File(2, if written then Data(c, InfoOf(2)) else "", NOW))
  {
  }

  /** How they change. */
  lemma FilesGrow(c: Codec)
    ensures Files(c, 3, false) == Files(c, 2, false)[2 := File(0, "", NOW)]
    ensures Files(c, 4, false) == Files(c, 3, false)[3 := File(2, "", NOW)]
    ensures Files(c, 5, false) == Files(c, 4, false)[4 := File(0, "", NOW)]
    ensures Files(c, 5, true) == Files(c, 5, false)[4 := File(0, Data(c, InfoOf(0)), NOW)]
    ensures Files(c, 6, false) == Files(c, 5, true)[5 := File(2, "", NOW)]
    ensures Files(c, 6, true) == Files(c, 6, false)[5 := File(2, Data(c, InfoOf(2)), NOW)]
  {
  }

  function Mk(c: Codec, lock: Option<FileId>, guard: Option<FileId>, next: nat, written: bool,
              a: Pc, b: Pc, d: Pc)
    : State
  {
    State(NOW, lock, guard, Files(c, next, written), next, map[0 := Proc0(0, a), 1 := Proc0(1, b), 2 := Proc0(2, d)])
  }

  /** The states between the scenes. */
  function Scene(c: Codec, k: nat): State {
    match k
    case 0 => Mk(c, Some(0), Some(1), 2, false, Idle, Idle, Idle)
    case 1 => Mk(c, Some(0), Some(1), 2, false, Opened(0, 0), Idle, Idle)
    case 2 => Mk(c, Some(0), Some(1), 2, false, Wanting(R), Idle, Idle)
    case 3 => Mk(c, Some(0), Some(1), 2, false, Wanting(R), Opened(0, 0), Idle)
    case 4 => Mk(c, Some(0), Some(1), 2, false, Wanting(R), Wanting(R), Idle)
    case 5 => Mk(c, Some(0), Some(1), 2, false, Wanting(R), Wanting(R), Opened(0, 0))
    case 6 => Mk(c, Some(0), Some(1), 2, false, Wanting(R), Wanting(R), Wanting(R))
    case 7 => Mk(c, Some(0), Some(1), 2, false, Clearing(R, 1, 30_000), Clearing(R, 1, 30_000), Wanting(R))
    case 8 => Mk(c, Some(0), None, 2, false, DropAside(R, true), Clearing(R, 1, 30_000), Wanting(R))
    case 9 => Mk(c, Some(0), Some(2), 3, false, Guarded(R, 2, NOW), Clearing(R, 1, 30_000), Wanting(R))
    case 10 => Mk(c, Some(0), Some(3), 4, false, Guarded(R, 2, NOW), Aside(R, 1, 30_000, 2), Guarded(R, 3, NOW))
    case 11 =>
      Mk(c, Some(0), Some(3), 4, false, GuardedOpened(R, 2, NOW, 0, 0), Aside(R, 1, 30_000, 2), Guarded(R, 3, NOW))
    case 12 => Mk(c, Some(0), Some(3), 4, false, Matched(R, 2, NOW), Aside(R, 1, 30_000, 2), Guarded(R, 3, NOW))
    case 13 =>
      Mk(c, Some(0), Some(3), 4, false, Matched(R, 2, NOW), Aside(R, 1, 30_000, 2), GuardedOpened(R, 3, NOW, 0, 0))
    case 14 => Mk(c, Some(0), Some(3), 4, false, Matched(R, 2, NOW), Aside(R, 1, 30_000, 2), Matched(R, 3, NOW))
    case 15 => Mk(c, None, Some(3), 4, false, Releasing(R, 2, NOW), Aside(R, 1, 30_000, 2), Matched(R, 3, NOW))
    case 16 => Mk(c, None, Some(3), 4, false, Idle, Aside(R, 1, 30_000, 2), Matched(R, 3, NOW))
    case 17 =>
      Mk(c, Some(4), Some(3), 5, true, Creating(Own(4, InfoOf(0))), Aside(R, 1, 30_000, 2), Matched(R, 3, NOW))
    case 18 => Mk(c, Some(4), Some(3), 5, true, Holding(Own(4, InfoOf(0))), Aside(R, 1, 30_000, 2), Matched(R, 3, NOW))
    case 19 => Mk(c, None, Some(3), 5, true, Holding(Own(4, InfoOf(0))), Aside(R, 1, 30_000, 2), Releasing(R, 3, NOW))
    case 20 => Mk(c, None, None, 5, true, Holding(Own(4, InfoOf(0))), Aside(R, 1, 30_000, 2), Idle)
    case 21 =>
      Mk(c, Some(5), None, 6, true, Holding(Own(4, InfoOf(0))), Aside(R, 1, 30_000, 2), Creating(Own(5, InfoOf(2))))
    case _ =>
      Mk(c, Some(5), None, 6, true, Holding(Own(4, InfoOf(0))), Aside(R, 1, 30_000, 2), Holding(Own(5, InfoOf(2))))
  }

  /** A process that has just created its lock file, or has none; and that looks at no guard of a live process. */
  ghost predicate Prompt(files: map<FileId, File>, pc: Pc) {
    && (OwnOf(pc).Some? ==>
          && OwnOf(pc).value.info.startedAt == NOW
          && OwnOf(pc).value.id in files && files[OwnOf(pc).value.id].mtime == NOW)
    && (pc.Statted? ==> pc.gid in files && files[pc.gid].owner == 99)
  }

  ghost predicate AllPrompt(s: State) {
    && s.now == NOW && s.procs.Keys == {0, 1, 2}
    && Prompt(s.files, s.procs[0].pc) && Prompt(s.files, s.procs[1].pc) && Prompt(s.files, s.procs[2].pc)
  }

  ghost predicate PromptRun(c: Codec, acts: seq<Action>, tr: seq<State>, s: State) {
    && IsRun(c, Scene(c, 0), acts, tr) && tr[|tr| - 1] == s
    && forall i | 0 <= i < |tr| :: PromptHolders(tr[i]) && PromptGuards(tr[i])
  }

  lemma StagePrompt(s: State)
    requires AllPrompt(s)
    ensures PromptHolders(s) && PromptGuards(s)
  {
    forall p | At(s, p)
      ensures Prompt(s.files, PcOf(s, p))
    {
      assert p in {0, 1, 2};
    }
  }

  /** One more step, from `s` to `t`. */
  lemma Extend(c: Codec, acts: seq<Action>, tr: seq<State>, s: State, a: Action, t: State)
    returns (acts': seq<Action>, tr': seq<State>)
    requires PromptRun(c, acts, tr, s) && Enabled(c, s, a) && t == Step(c, s, a) && AllPrompt(t)
    ensures PromptRun(c, acts', tr', t)
  {
    StagePrompt(t);
    hide Step, Enabled, PromptHolders, PromptGuards, Scene, AllPrompt;
    acts', tr' := acts + [a], tr + [t];
    forall i | 0 <= i < |acts'|
      ensures Enabled(c, tr'[i], acts'[i]) && tr'[i + 1] == Step(c, tr'[i], acts'[i])
    {
      if i < |acts| {
        assert acts'[i] == acts[i] && tr'[i] == tr[i] && tr'[i + 1] == tr[i + 1];
      }
    }
  }

  /** A sound codec never takes the empty text for JSON. */
  lemma EmptyIsTorn(c: Codec)
    requires Sound(c)
    ensures !c.valid("")
  {
    var i, j := InfoOf(0), InfoOf(1);
    assert c.decode(c.marshal(i)) == Some(i) && c.decode(c.marshal(j)) == Some(j);
    var k := if |c.marshal(i)| > 0 then i else j;
    assert c.marshal(k)[..0] == "";
  }

  lemma WholeRecord(c: Codec)
    ensures forall i: LockInfo :: |Data(c, i)| > 0 && Data(c, i)[..|Data(c, i)|] == Data(c, i)
  {
  }

  /** Process 0 finds the lock file and judges it stale. */
  lemma Play0(c: Codec, acts0: seq<Action>, tr0: seq<State>) returns (acts: seq<Action>, tr: seq<State>)
    requires Sound(c) && PromptRun(c, acts0, tr0, Scene(c, 0))
    ensures PromptRun(c, acts, tr, Scene(c, 1))
  {
    hide Files, PromptRun, Sound, PromptHolders, PromptGuards, IsRun, RecordsLive;
    FilesAre(c, 2, false);
    var s1 := Mk(c, Some(0), Some(1), 2, false, Blocked, Idle, Idle);
    acts, tr := Extend(c, acts0, tr0, Scene(c, 0), TryCreate(0, NOW), s1);
    acts, tr := Extend(c, acts, tr, s1, OpenLock(0), Scene(c, 1));
  }

  lemma Play1(c: Codec, acts0: seq<Action>, tr0: seq<State>) returns (acts: seq<Action>, tr: seq<State>)
    requires Sound(c) && PromptRun(c, acts0, tr0, Scene(c, 1))
    ensures PromptRun(c, acts, tr, Scene(c, 2))
  {
    hide Files, PromptRun, Sound, PromptHolders, PromptGuards, IsRun;
    FilesAre(c, 2, false);
    EmptyIsTorn(c);
    var s1 := Mk(c, Some(0), Some(1), 2, false, HasRead(0, "", 0), Idle, Idle);
    acts, tr := Extend(c, acts0, tr0, Scene(c, 1), ReadLock(0), s1);
    acts, tr := Extend(c, acts, tr, s1, Judge(0, false), Scene(c, 2));
  }

  /** So does 1. */
  lemma Play2(c: Codec, acts0: seq<Action>, tr0: seq<State>) returns (acts: seq<Action>, tr: seq<State>)
    requires Sound(c) && PromptRun(c, acts0, tr0, Scene(c, 2))
    ensures PromptRun(c, acts, tr, Scene(c, 3))
  {
    hide Files, PromptRun, Sound, PromptHolders, PromptGuards, IsRun, RecordsLive;
    FilesAre(c, 2, false);
    var s1 := Mk(c, Some(0), Some(1), 2, false, Wanting(R), Blocked, Idle);
    acts, tr := Extend(c, acts0, tr0, Scene(c, 2), TryCreate(1, NOW), s1);
    acts, tr := Extend(c, acts, tr, s1, OpenLock(1), Scene(c, 3));
  }

  lemma Play3(c: Codec, acts0: seq<Action>, tr0: seq<State>) returns (acts: seq<Action>, tr: seq<State>)
    requires Sound(c) && PromptRun(c, acts0, tr0, Scene(c, 3))
    ensures PromptRun(c, acts, tr, Scene(c, 4))
  {
    hide Files, PromptRun, Sound, PromptHolders, PromptGuards, IsRun;
    FilesAre(c, 2, false);
    EmptyIsTorn(c);
    var s1 := Mk(c, Some(0), Some(1), 2, false, Wanting(R), HasRead(0, "", 0), Idle);
    acts, tr := Extend(c, acts0, tr0, Scene(c, 3), ReadLock(1), s1);
    acts, tr := Extend(c, acts, tr, s1, Judge(1, false), Scene(c, 4));
  }

  /** So does 2. */
  lemma Play4(c: Codec, acts0: seq<Action>, tr0: seq<State>) returns (acts: seq<Action>, tr: seq<State>)
    requires Sound(c) && PromptRun(c, acts0, tr0, Scene(c, 4))
    ensures PromptRun(c, acts, tr, Scene(c, 5))
  {
    hide Files, PromptRun, Sound, PromptHolders, PromptGuards, IsRun, RecordsLive;
    FilesAre(c, 2, false);
    var s1 := Mk(c, Some(0), Some(1), 2, false, Wanting(R), Wanting(R), Blocked);
    acts, tr := Extend(c, acts0, tr0, Scene(c, 4), TryCreate(2, NOW), s1);
    acts, tr := Extend(c, acts, tr, s1, OpenLock(2), Scene(c, 5));
  }

  lemma Play5(c: Codec, acts0: seq<Action>, tr0: seq<State>) returns (acts: seq<Action>, tr: seq<State>)
    requires Sound(c) && PromptRun(c, acts0, tr0, Scene(c, 5))
    ensures PromptRun(c, acts, tr, Scene(c, 6))
  {
    hide Files, PromptRun, Sound, PromptHolders, PromptGuards, IsRun;
    FilesAre(c, 2, false);
    EmptyIsTorn(c);
    var s1 := Mk(c, Some(0), Some(1), 2, false, Wanting(R), Wanting(R), HasRead(0, "", 0));
    acts, tr := Extend(c, acts0, tr0, Scene(c, 5), ReadLock(2), s1);
    acts, tr := Extend(c, acts, tr, s1, Judge(2, false), Scene(c, 6));
  }

  /** Processes 0 and 1 both find the old guard stale. */
  lemma Play6(c: Codec, acts0: seq<Action>, tr0: seq<State>) returns (acts: seq<Action>, tr: seq<State>)
    requires Sound(c) && PromptRun(c, acts0, tr0, Scene(c, 6))
    ensures PromptRun(c, acts, tr, Scene(c, 7))
  {
    hide Files, PromptRun, Sound, PromptHolders, PromptGuards, IsRun, RecordsLive;
    FilesAre(c, 2, false);
    var s1 := Mk(c, Some(0), Some(1), 2, false, Statted(R, 1, 30_000), Wanting(R), Wanting(R));
    acts, tr := Extend(c, acts0, tr0, Scene(c, 6), TryGuard(0), s1);
    var s2 := Mk(c, Some(0), Some(1), 2, false, Clearing(R, 1, 30_000), Wanting(R), Wanting(R));
    acts, tr := Extend(c, acts, tr, s1, CheckGuardAge(0), s2);
    var s3 := Mk(c, Some(0), Some(1), 2, false, Clearing(R, 1, 30_000), Statted(R, 1, 30_000), Wanting(R));
    acts, tr := Extend(c, acts, tr, s2, TryGuard(1), s3);
    acts, tr := Extend(c, acts, tr, s3, CheckGuardAge(1), Scene(c, 7));
  }

  /** Process 0 clears it and takes guard 2. */
  lemma Play7(c: Codec, acts0: seq<Action>, tr0: seq<State>) returns (acts: seq<Action>, tr: seq<State>)
    requires Sound(c) && PromptRun(c, acts0, tr0, Scene(c, 7))
    ensures PromptRun(c, acts, tr, Scene(c, 8))
  {
    hide Files, PromptRun, Sound, PromptHolders, PromptGuards, IsRun, RecordsLive;
    FilesAre(c, 2, false);
    var s1 := Mk(c, Some(0), None, 2, false, Aside(R, 1, 30_000, 1), Clearing(R, 1, 30_000), Wanting(R));
    acts, tr := Extend(c, acts0, tr0, Scene(c, 7), RenameAside(0), s1);
    acts, tr := Extend(c, acts, tr, s1, CompareAside(0), Scene(c, 8));
  }

  lemma Play8(c: Codec, acts0: seq<Action>, tr0: seq<State>) returns (acts: seq<Action>, tr: seq<State>)
    requires Sound(c) && PromptRun(c, acts0, tr0, Scene(c, 8))
    ensures PromptRun(c, acts, tr, Scene(c, 9))
  {
    hide Files, PromptRun, Sound, PromptHolders, PromptGuards, IsRun, RecordsLive;
    FilesAre(c, 2, false);
    FilesAre(c, 3, false);
    FilesGrow(c);
    var s1 := Mk(c, Some(0), None, 2, false, Wanting(R), Clearing(R, 1, 30_000), Wanting(R));
    acts, tr := Extend(c, acts0, tr0, Scene(c, 8), DropName(0), s1);
    acts, tr := Extend(c, acts, tr, s1, TryGuard(0), Scene(c, 9));
  }

  /** Process 1 moves guard 2 aside, and in that window 2 takes guard 3. */
  lemma Play9(c: Codec, acts0: seq<Action>, tr0: seq<State>) returns (acts: seq<Action>, tr: seq<State>)
    requires Sound(c) && PromptRun(c, acts0, tr0, Scene(c, 9))
    ensures PromptRun(c, acts, tr, Scene(c, 10))
  {
    hide Files, PromptRun, Sound, PromptHolders, PromptGuards, IsRun, RecordsLive;
    FilesAre(c, 3, false);
    FilesAre(c, 4, false);
    FilesGrow(c);
    var s1 := Mk(c, Some(0), None, 3, false, Guarded(R, 2, NOW), Aside(R, 1, 30_000, 2), Wanting(R));
    acts, tr := Extend(c, acts0, tr0, Scene(c, 9), RenameAside(1), s1);
    acts, tr := Extend(c, acts, tr, s1, TryGuard(2), Scene(c, 10));
  }

  /** Both compare the same lock file. */
  lemma Play10(c: Codec, acts0: seq<Action>, tr0: seq<State>) returns (acts: seq<Action>, tr: seq<State>)
    requires Sound(c) && PromptRun(c, acts0, tr0, Scene(c, 10))
    ensures PromptRun(c, acts, tr, Scene(c, 11))
  {
    hide Files, PromptRun, Sound, PromptHolders, PromptGuards, IsRun, RecordsLive;
    FilesAre(c, 4, false);
    acts, tr := Extend(c, acts0, tr0, Scene(c, 10), OpenGuarded(0), Scene(c, 11));
  }

  lemma Play11(c: Codec, acts0: seq<Action>, tr0: seq<State>) returns (acts: seq<Action>, tr: seq<State>)
    requires Sound(c) && PromptRun(c, acts0, tr0, Scene(c, 11))
    ensures PromptRun(c, acts, tr, Scene(c, 12))
  {
    hide Files, PromptRun, Sound, PromptHolders, PromptGuards, IsRun, RecordsLive;
    FilesAre(c, 4, false);
    acts, tr := Extend(c, acts0, tr0, Scene(c, 11), CompareGuarded(0), Scene(c, 12));
  }

  lemma Play12(c: Codec, acts0: seq<Action>, tr0: seq<State>) returns (acts: seq<Action>, tr: seq<State>)
    requires Sound(c) && PromptRun(c, acts0, tr0, Scene(c, 12))
    ensures PromptRun(c, acts, tr, Scene(c, 13))
  {
    hide Files, PromptRun, Sound, PromptHolders, PromptGuards, IsRun, RecordsLive;
    FilesAre(c, 4, false);
    acts, tr := Extend(c, acts0, tr0, Scene(c, 12), OpenGuarded(2), Scene(c, 13));
  }

  lemma Play13(c: Codec, acts0: seq<Action>, tr0: seq<State>) returns (acts: seq<Action>, tr: seq<State>)
    requires Sound(c) && PromptRun(c, acts0, tr0, Scene(c, 13))
    ensures PromptRun(c, acts, tr, Scene(c, 14))
  {
    hide Files, PromptRun, Sound, PromptHolders, PromptGuards, IsRun, RecordsLive;
    FilesAre(c, 4, false);
    acts, tr := Extend(c, acts0, tr0, Scene(c, 13), CompareGuarded(2), Scene(c, 14));
  }

  /** Process 0 removes it, and takes the lock anew. */
  lemma Play14(c: Codec, acts0: seq<Action>, tr0: seq<State>) returns (acts: seq<Action>, tr: seq<State>)
    requires Sound(c) && PromptRun(c, acts0, tr0, Scene(c, 14))
    ensures PromptRun(c, acts, tr, Scene(c, 15))
  {
    hide Files, PromptRun, Sound, PromptHolders, PromptGuards, IsRun, RecordsLive;
    FilesAre(c, 4, false);
    acts, tr := Extend(c, acts0, tr0, Scene(c, 14), RemoveGuarded(0), Scene(c, 15));
  }

  lemma Play15(c: Codec, acts0: seq<Action>, tr0: seq<State>) returns (acts: seq<Action>, tr: seq<State>)
    requires Sound(c) && PromptRun(c, acts0, tr0, Scene(c, 15))
    ensures PromptRun(c, acts, tr, Scene(c, 16))
  {
    hide Files, PromptRun, Sound, PromptHolders, PromptGuards, IsRun, RecordsLive;
    FilesAre(c, 4, false);
    acts, tr := Extend(c, acts0, tr0, Scene(c, 15), CheckRelease(0), Scene(c, 16));
  }

  lemma Play16(c: Codec, acts0: seq<Action>, tr0: seq<State>) returns (acts: seq<Action>, tr: seq<State>)
    requires Sound(c) && PromptRun(c, acts0, tr0, Scene(c, 16))
    ensures PromptRun(c, acts, tr, Scene(c, 17))
  {
    hide Files, PromptRun, Sound, PromptHolders, PromptGuards, IsRun, RecordsLive;
    FilesAre(c, 4, false);
    FilesAre(c, 5, false);
    FilesAre(c, 5, true);
    FilesGrow(c);
    WholeRecord(c);
    var s1 :=
      Mk(c, Some(4), Some(3), 5, false, Creating(Own(4, InfoOf(0))), Aside(R, 1, 30_000, 2), Matched(R, 3, NOW));
    acts, tr := Extend(c, acts0, tr0, Scene(c, 16), TryCreate(0, NOW), s1);
    acts, tr := Extend(c, acts, tr, s1, WriteMore(0, |Data(c, InfoOf(0))|), Scene(c, 17));
  }

  lemma Play17(c: Codec, acts0: seq<Action>, tr0: seq<State>) returns (acts: seq<Action>, tr: seq<State>)
    requires Sound(c) && PromptRun(c, acts0, tr0, Scene(c, 17))
    ensures PromptRun(c, acts, tr, Scene(c, 18))
  {
    hide Files, PromptRun, Sound, PromptHolders, PromptGuards, IsRun, RecordsLive;
    FilesAre(c, 5, true);
    WholeRecord(c);
    acts, tr := Extend(c, acts0, tr0, Scene(c, 17), CreateDone(0), Scene(c, 18));
  }

  /** Process 2 removes that lock file, and takes the lock too. */
  lemma Play18(c: Codec, acts0: seq<Action>, tr0: seq<State>) returns (acts: seq<Action>, tr: seq<State>)
    requires Sound(c) && PromptRun(c, acts0, tr0, Scene(c, 18))
    ensures PromptRun(c, acts, tr, Scene(c, 19))
  {
    hide Files, PromptRun, Sound, PromptHolders, PromptGuards, IsRun, RecordsLive;
    FilesAre(c, 5, true);
    acts, tr := Extend(c, acts0, tr0, Scene(c, 18), RemoveGuarded(2), Scene(c, 19));
  }

  lemma Play19(c: Codec, acts0: seq<Action>, tr0: seq<State>) returns (acts: seq<Action>, tr: seq<State>)
    requires Sound(c) && PromptRun(c, acts0, tr0, Scene(c, 19))
    ensures PromptRun(c, acts, tr, Scene(c, 20))
  {
    hide Files, PromptRun, Sound, PromptHolders, PromptGuards, IsRun, RecordsLive;
    FilesAre(c, 5, true);
    var s1 := Mk(c, None, Some(3), 5, true, Holding(Own(4, InfoOf(0))), Aside(R, 1, 30_000, 2), ReleaseRemove(R, 3));
    acts, tr := Extend(c, acts0, tr0, Scene(c, 19), CheckRelease(2), s1);
    acts, tr := Extend(c, acts, tr, s1, RemoveGuard(2), Scene(c, 20));
  }

  lemma Play20(c: Codec, acts0: seq<Action>, tr0: seq<State>) returns (acts: seq<Action>, tr: seq<State>)
    requires Sound(c) && PromptRun(c, acts0, tr0, Scene(c, 20))
    ensures PromptRun(c, acts, tr, Scene(c, 21))
  {
    hide Files, PromptRun, Sound, PromptHolders, PromptGuards, IsRun, RecordsLive;
    FilesAre(c, 5, true);
    FilesAre(c, 6, false);
    FilesAre(c, 6, true);
    FilesGrow(c);
    WholeRecord(c);
    var s1 :=
      Mk(c, Some(5), None, 6, false, Holding(Own(4, InfoOf(0))), Aside(R, 1, 30_000, 2), Creating(Own(5, InfoOf(2))));
    acts, tr := Extend(c, acts0, tr0, Scene(c, 20), TryCreate(2, NOW), s1);
    acts, tr := Extend(c, acts, tr, s1, WriteMore(2, |Data(c, InfoOf(2))|), Scene(c, 21));
  }

  lemma Play21(c: Codec, acts0: seq<Action>, tr0: seq<State>) returns (acts: seq<Action>, tr: seq<State>)
    requires Sound(c) && PromptRun(c, acts0, tr0, Scene(c, 21))
    ensures PromptRun(c, acts, tr, Scene(c, 22))
  {
    hide Files, PromptRun, Sound, PromptHolders, PromptGuards, IsRun, RecordsLive;
    FilesAre(c, 6, true);
    WholeRecord(c);
    acts, tr := Extend(c, acts0, tr0, Scene(c, 21), CreateDone(2), Scene(c, 22));
  }

  lemma Start(c: Codec)
    ensures Init(Scene(c, 0)) && PromptRun(c, [], [Scene(c, 0)], Scene(c, 0))
  {
  }

  lemma WholeRun(c: Codec) returns (acts: seq<Action>, tr: seq<State>)
    requires Sound(c)
    ensures PromptRun(c, acts, tr, Scene(c, 22))
  {
    hide PromptRun, Sound, Scene;
    Start(c);
    acts, tr := [], [Scene(c, 0)];
    acts, tr := Play0(c, acts, tr);
    acts, tr := Play1(c, acts, tr);
    acts, tr := Play2(c, acts, tr);
    acts, tr := Play3(c, acts, tr);
    acts, tr := Play4(c, acts, tr);
    acts, tr := Play5(c, acts, tr);
    acts, tr := Play6(c, acts, tr);
    acts, tr := Play7(c, acts, tr);
    acts, tr := Play8(c, acts, tr);
    acts, tr := Play9(c, acts, tr);
    acts, tr := Play10(c, acts, tr);
    acts, tr := Play11(c, acts, tr);
    acts, tr := Play12(c, acts, tr);
    acts, tr := Play13(c, acts, tr);
    acts, tr := Play14(c, acts, tr);
    acts, tr := Play15(c, acts, tr);
    acts, tr := Play16(c, acts, tr);
    acts, tr := Play17(c, acts, tr);
    acts, tr := Play18(c, acts, tr);
    acts, tr := Play19(c, acts, tr);
    acts, tr := Play20(c, acts, tr);
    acts, tr := Play21(c, acts, tr);
  }

  /** A guard left behind breaks mutual exclusion even though every live process is prompt, with the lock and with the
      guard: only a guard made in a rename window is to blame (`LockGuard.LockExcludes`). */
  lemma StaleGuardBreaksExclusion(c: Codec) returns (acts: seq<Action>, tr: seq<State>)
    requires Sound(c)
    ensures |tr| > 0 && Init(tr[0]) && IsRun(c, tr[0], acts, tr)
    ensures forall i | 0 <= i < |tr| :: PromptHolders(tr[i]) && PromptGuards(tr[i])
    ensures !MutualExclusion(tr[|tr| - 1])
  {
    acts, tr := WholeRun(c);
    Start(c);
    hide Init, PromptHolders, PromptGuards, Enabled, Step, Sound;
    var s := Scene(c, 22);
    assert At(s, 0) && At(s, 2) && OwnOf(PcOf(s, 0)).Some? && OwnOf(PcOf(s, 2)).Some?;
  }
}

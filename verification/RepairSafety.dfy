/** Base repair is sound, hides no edit, and converges. */
module RepairSafety {
  import opened Basics
  import opened Pages
  import opened Contract
  import opened Hub
  import opened Repair
  import opened RepairPlan

  // ---- What a plan may rest on ----

  ghost predicate HonestReply(v: Server, p: Path, r: Reply) {
    r.error.None? && r.sha != NoSha ==> Faithful(v, p, r.sha, r.body)
  }

  ghost predicate HonestAnswers(v: Server, srv: Answers) {
    && (forall p :: HonestReply(v, p, srv.read(p)) && HonestReply(v, p, srv.readAt(p)))
    && (forall p | p in srv.pulled && srv.pulled[p].1 != NoSha :: Faithful(v, p, srv.pulled[p].1, srv.pulled[p].0))
  }

  /** The base an action stores, the sha it records and the version its sidecar names are the server's. */
  ghost predicate TrueAction(v: Server, a: Action) {
    && a.newSha in v.versions
    && (a.base.Some? ==> TrueRecord(v, a.path, BaseRecord(a.newSha, HashOf(a.base.value))))
    && (a.sidecar.Some? ==> IssuedFor(v, a.sidecar.value.0.serverSha, a.path))
  }

  lemma GroundedIsTrue(v: Server, s: Store, srv: Answers, a: Action)
    requires TrueStore(v, s) && HonestAnswers(v, srv) && Grounded(s, srv, a) && ShaAt(s.state.shas, a.path) != NoSha
    ensures TrueAction(v, a)
  {
    assert HonestReply(v, a.path, srv.read(a.path)) && HonestReply(v, a.path, srv.readAt(a.path));
    hide HashOf;
  }

  // ---- Bases stay true ----

  ghost predicate TrueActions(v: Server, acts: seq<Action>) {
    forall k | 0 <= k < |acts| :: TrueAction(v, acts[k])
  }

  lemma {:induction false} KeptAreTrue(v: Server, shas: map<Path, Sha>, acts: seq<Action>, i: nat, found: seq<Action>)
    requires i <= |acts| && TrueActions(v, acts) && TrueActions(v, found)
    ensures TrueActions(v, KeptFrom(shas, acts, i, found))
    decreases |acts| - i
  {
    hide TrueAction;
    if i < |acts| {
      KeptAreTrue(v, shas, acts, i + 1,
                  if ShaAt(shas, acts[i].path) == acts[i].oldSha then found + [acts[i]] else found);
    }
  }

  lemma {:induction false} BasesKeep(v: Server, lands: Faults, acts: seq<Action>, i: nat, x: Applied)
    requires i <= |acts| && TrueActions(v, acts) && TrueStore(v, x.store)
    ensures TrueStore(v, ApplyBases(lands, acts, i, x).store)
    decreases |acts| - i
  {
    hide TrueStore, HashOf, PutBase;
    if i < |acts| {
      if acts[i].base.Some? {
        PutBaseKeeps(lands, v, x.store, acts[i].path, acts[i].base.value, acts[i].newSha);
      }
      BasesKeep(v, lands, acts, i + 1, ApplyBase(lands, acts[i], x));
    }
  }

  lemma {:induction false} SidecarsKeep(v: Server, lands: Faults, acts: seq<Action>, i: nat, x: Applied)
    requires i <= |acts| && TrueActions(v, acts) && TrueStore(v, x.store)
    ensures TrueStore(v, ApplySidecars(lands, acts, i, x).store)
    decreases |acts| - i
  {
    hide TrueStore, PutConflict, ClearConflict;
    if i < |acts| {
      if acts[i].sidecar.Some? {
        PutConflictKeeps(lands, v, x.store, acts[i].path, acts[i].sidecar.value.0, acts[i].sidecar.value.1);
      }
      ClearConflictKeeps(lands, v, x.store, acts[i].path);
      SidecarsKeep(v, lands, acts, i + 1, ApplySidecarOf(lands, acts[i], x));
    }
  }

  lemma SaveIndexesKeeps(v: Server, lands: Faults, x: Applied)
    requires TrueStore(v, x.store)
    ensures TrueStore(v, SaveIndexes(lands, x).store)
  {
    hide TrueStore, SaveBases, SaveConflicts;
    SavesKeep(lands, v, x.store);
    SavesKeep(lands, v, SaveBases(lands, x.store));
  }

  lemma {:induction false} NewShasIssued(v: Server, acts: seq<Action>, i: nat, shas: map<Path, Sha>)
    requires i <= |acts| && TrueActions(v, acts) && IssuedShas(v, shas)
    ensures IssuedShas(v, NewShas(acts, i, shas))
    decreases |acts| - i
  {
    if i < |acts| {
      NewShasIssued(v, acts, i + 1, if ShaAt(shas, acts[i].path) != acts[i].newSha
                                    then shas[acts[i].path := acts[i].newSha] else shas);
    }
  }

  /** Whatever subset of a repair's writes reaches the disk, and whatever an old binary put in state.json since the
      plan was made, every base is true. */
  lemma RepairKeepsBasesTrue(v: Server, lands: Faults, s: Store, acts: seq<Action>)
    requires TrueStore(v, s) && TrueActions(v, acts)
    ensures TrueStore(v, ApplyPlan(lands, s, acts))
  {
    var now := s.disk.state;
    KeptAreTrue(v, now.shas, acts, 0, []);
    var kept := KeptFrom(now.shas, acts, 0, []);
    var x0 := Applied(s, true, false, false);
    BasesKeep(v, lands, kept, 0, x0);
    var x1 := ApplyBases(lands, kept, 0, x0);
    SidecarsKeep(v, lands, kept, 0, x1);
    SaveIndexesKeeps(v, lands, ApplySidecars(lands, kept, 0, x1));
    NewShasIssued(v, kept, 0, now.shas);
    var y := SaveIndexes(lands, ApplySidecars(lands, kept, 0, x1));
    var t := y.store.(state := now.(shas := NewShas(kept, 0, now.shas)));
    assert TrueStore(v, t);
    SavesKeep(lands, v, t);
    hide TrueStore, ApplyBases, ApplySidecars, SaveIndexes, SaveState;
  }

  lemma {:induction false} BasesLeaveFiles(lands: Faults, acts: seq<Action>, i: nat, x: Applied)
    requires i <= |acts|
    ensures SameTree(x.store, ApplyBases(lands, acts, i, x).store)
    decreases |acts| - i
  {
    hide PutBase;
    if i < |acts| {
      if acts[i].base.Some? {
        StoreWritesLeaveTree(lands, x.store, acts[i].path, acts[i].base.value, acts[i].newSha,
                             ConflictRecord(NoSha, NoSha, BothAdded, false));
      }
      BasesLeaveFiles(lands, acts, i + 1, ApplyBase(lands, acts[i], x));
    }
  }

  lemma {:induction false} SidecarsLeaveFiles(lands: Faults, acts: seq<Action>, i: nat, x: Applied)
    requires i <= |acts|
    ensures SameTree(x.store, ApplySidecars(lands, acts, i, x).store)
    decreases |acts| - i
  {
    hide PutConflict, ClearConflict;
    if i < |acts| {
      var (rec, c) := if acts[i].sidecar.Some? then acts[i].sidecar.value
                      else (ConflictRecord(NoSha, NoSha, BothAdded, false), EMPTY);
      StoreWritesLeaveTree(lands, x.store, acts[i].path, c, NoSha, rec);
      SidecarsLeaveFiles(lands, acts, i + 1, ApplySidecarOf(lands, acts[i], x));
    }
  }

  /** Repair touches no working file and no backup. */
  lemma RepairLeavesFiles(lands: Faults, s: Store, acts: seq<Action>)
    ensures SameTree(s, ApplyPlan(lands, s, acts))
  {
    hide ApplyBases, ApplySidecars, KeptFrom, NewShas, SaveBases, SaveConflicts, SaveState;
    var kept := KeptFrom(s.disk.state.shas, acts, 0, []);
    var x0 := Applied(s, true, false, false);
    BasesLeaveFiles(lands, kept, 0, x0);
    var x1 := ApplyBases(lands, kept, 0, x0);
    SidecarsLeaveFiles(lands, kept, 0, x1);
    var x2 := ApplySidecars(lands, kept, 0, x1);
    SavesLeaveTree(lands, x2.store);
    SavesLeaveTree(lands, SaveBases(lands, x2.store));
    var y := SaveIndexes(lands, x2);
    SavesLeaveTree(lands, y.store.(state := s.disk.state.(shas := NewShas(kept, 0, s.disk.state.shas))));
  }

  // ---- One page through a repair in which nothing fails ----

  /** The index copies are those on disk, and the actions are for the page_shas values now on disk, at most one per
      page, and name real commits. */
  ghost predicate Fits(s: Store, acts: seq<Action>) {
    && s.bases == s.disk.bases && s.conflicts == s.disk.conflicts
    && OncePerPage(acts)
    && (forall k | 0 <= k < |acts| :: acts[k].oldSha == ShaAt(s.disk.state.shas, acts[k].path))
    && (forall k | 0 <= k < |acts| :: acts[k].newSha != NoSha
          && (acts[k].sidecar.Some? ==> acts[k].sidecar.value.0.serverSha != NoSha))
  }

  lemma {:induction false} AllKept(s: Store, acts: seq<Action>, i: nat)
    requires Fits(s, acts) && i <= |acts|
    ensures KeptFrom(s.disk.state.shas, acts, i, acts[..i]) == acts
    decreases |acts| - i
  {
    if i < |acts| {
      assert acts[..i + 1] == acts[..i] + [acts[i]];
      AllKept(s, acts, i + 1);
    } else {
      assert acts[..i] == acts;
    }
  }

  /** What an action makes of its page's base, of its sidecar, and of its page_shas value. */
  function BasedBy(a: Action, t: Slot): Slot {
    if a.base.None? then t
    else t.(base := Some(BaseRecord(a.newSha, HashOf(a.base.value))), baseFile := Some(a.base.value))
  }

  function NotedBy(a: Action, t: Slot): Slot {
    match a.sidecar
    case Some((rec, c)) =>
      t.(sidecar := Some(NormalizeConflict(rec, c)), text := if c == EMPTY then None else Some(c))
    case None => if a.clearSidecar then t.(sidecar := None, text := None) else t
  }

  function RepairedBy(a: Action, t: Slot): Slot {
    NotedBy(a, BasedBy(a, t)).(sha := a.newSha)
  }

  /** The only action that can be about `p` is the `k`-th. */
  ghost predicate OnlyAt(acts: seq<Action>, k: int, p: Path) {
    forall j | 0 <= j < |acts| && j != k :: acts[j].path != p
  }

  lemma {:induction false} BasesApplied(lands: Faults, acts: seq<Action>, i: nat, x: Applied, k: int, p: Path)
    requires NoFaults(lands) && i <= |acts| && OnlyAt(acts, k, p) && x.ok
    requires forall j | 0 <= j < |acts| :: acts[j].newSha != NoSha
    ensures var y := ApplyBases(lands, acts, i, x); var t := SlotOf(x.store, p);
      && y.ok
      && SlotOf(y.store, p) == if i <= k < |acts| && acts[k].path == p then BasedBy(acts[k], t) else t
    decreases |acts| - i
  {
    if i < |acts| {
      var y := ApplyBase(lands, acts[i], x);
      assert y.ok && SlotOf(y.store, p) == if acts[i].path == p then BasedBy(acts[i], SlotOf(x.store, p))
                                           else SlotOf(x.store, p);
      hide ApplyBase, SlotOf, BasedBy, OnlyAt;
      BasesApplied(lands, acts, i + 1, y, k, p);
      if acts[i].path == p {
        OnlyOne(acts, k, p, i);
      }
    }
  }

  lemma OnlyOne(acts: seq<Action>, k: int, p: Path, i: nat)
    requires OnlyAt(acts, k, p) && i < |acts| && acts[i].path == p
    ensures i == k
  {
  }

  lemma {:induction false} SidecarsApplied(lands: Faults, acts: seq<Action>, i: nat, x: Applied, k: int, p: Path)
    requires NoFaults(lands) && i <= |acts| && OnlyAt(acts, k, p) && x.ok
    requires forall j | 0 <= j < |acts| :: acts[j].sidecar.Some? ==> acts[j].sidecar.value.0.serverSha != NoSha
    ensures var y := ApplySidecars(lands, acts, i, x); var t := SlotOf(x.store, p);
      && y.ok
      && SlotOf(y.store, p) == if i <= k < |acts| && acts[k].path == p then NotedBy(acts[k], t) else t
    decreases |acts| - i
  {
    if i < |acts| {
      var y := ApplySidecarOf(lands, acts[i], x);
      SidecarApplied(lands, acts[i], x, p);
      hide ApplySidecarOf, SlotOf, NotedBy, OnlyAt;
      SidecarsApplied(lands, acts, i + 1, y, k, p);
      if acts[i].path == p {
        OnlyOne(acts, k, p, i);
      }
    }
  }

  lemma SidecarApplied(lands: Faults, a: Action, x: Applied, p: Path)
    requires NoFaults(lands) && x.ok && (a.sidecar.Some? ==> a.sidecar.value.0.serverSha != NoSha)
    ensures var y := ApplySidecarOf(lands, a, x); var t := SlotOf(x.store, p);
      y.ok && SlotOf(y.store, p) == if a.path == p then NotedBy(a, t) else t
  {
    hide NormalizeConflict;
  }

  lemma {:induction false} ShasApplied(acts: seq<Action>, i: nat, shas: map<Path, Sha>, k: int, p: Path)
    requires i <= |acts| && OnlyAt(acts, k, p)
    ensures ShaAt(NewShas(acts, i, shas), p)
         == if i <= k < |acts| && acts[k].path == p then acts[k].newSha else ShaAt(shas, p)
    decreases |acts| - i
  {
    if i < |acts| {
      ShasApplied(acts, i + 1, if ShaAt(shas, acts[i].path) != acts[i].newSha
                               then shas[acts[i].path := acts[i].newSha] else shas, k, p);
    }
  }

  /** An index copy that is not marked changed is what the disk has; state.json is untouched so far. */
  ghost predicate Marked(x: Applied, now: SyncState) {
    && (!x.bases ==> x.store.bases == x.store.disk.bases)
    && (!x.conflicts ==> x.store.conflicts == x.store.disk.conflicts)
    && x.store.disk.state == now
  }

  lemma {:induction false} BasesMarked(lands: Faults, acts: seq<Action>, i: nat, x: Applied, now: SyncState)
    requires NoFaults(lands) && i <= |acts| && x.ok && Marked(x, now)
    requires forall j | 0 <= j < |acts| :: acts[j].newSha != NoSha
    ensures var y := ApplyBases(lands, acts, i, x); y.ok && Marked(y, now)
    decreases |acts| - i
  {
    if i < |acts| {
      BasesMarked(lands, acts, i + 1, ApplyBase(lands, acts[i], x), now);
    }
  }

  lemma {:induction false} SidecarsMarked(lands: Faults, acts: seq<Action>, i: nat, x: Applied, now: SyncState)
    requires NoFaults(lands) && i <= |acts| && x.ok && Marked(x, now)
    requires forall j | 0 <= j < |acts| :: acts[j].sidecar.Some? ==> acts[j].sidecar.value.0.serverSha != NoSha
    ensures var y := ApplySidecars(lands, acts, i, x); y.ok && Marked(y, now)
    decreases |acts| - i
  {
    if i < |acts| {
      SidecarsMarked(lands, acts, i + 1, ApplySidecarOf(lands, acts[i], x), now);
    }
  }

  lemma IndexesSaved(lands: Faults, x: Applied, now: SyncState)
    requires NoFaults(lands) && x.ok && Marked(x, now)
    ensures var y := SaveIndexes(lands, x);
      && y.ok && y.store.bases == y.store.disk.bases && y.store.conflicts == y.store.disk.conflicts
      && y.store.disk.state == now
  {
  }

  lemma IndexesKeepSlots(lands: Faults, x: Applied, p: Path)
    ensures SlotOf(SaveIndexes(lands, x).store, p) == SlotOf(x.store, p)
  {
    SavesKeepSlots(lands, x.store, p);
    SavesKeepSlots(lands, SaveBases(lands, x.store), p);
    hide SlotOf, SaveBases, SaveConflicts;
  }

  /** The index copies and the disk agree once everything is written. */
  lemma RepairSaved(lands: Faults, s: Store, acts: seq<Action>)
    requires NoFaults(lands) && Fits(s, acts)
    ensures var t := ApplyPlan(lands, s, acts); Open(t.disk) == t && ApplyOk(lands, s, acts)
  {
    hide ApplyBases, ApplySidecars, SaveIndexes, NewShas, KeptFrom;
    AllKept(s, acts, 0);
    assert acts[..0] == [];
    var x0 := Applied(s, true, false, false);
    BasesMarked(lands, acts, 0, x0, s.disk.state);
    var x1 := ApplyBases(lands, acts, 0, x0);
    SidecarsMarked(lands, acts, 0, x1, s.disk.state);
    IndexesSaved(lands, ApplySidecars(lands, acts, 0, x1), s.disk.state);
  }

  lemma {:induction false} BasesSame(lands: Faults, acts: seq<Action>, i: nat, x: Applied)
    requires i <= |acts| && ApplyBases(lands, acts, i, x).ok
    ensures x.ok && ApplyBases(lands, acts, i, x) == ApplyBases(NeverFail(), acts, i, x)
    decreases |acts| - i
  {
    if i < |acts| {
      var y := ApplyBase(lands, acts[i], x);
      BasesSame(lands, acts, i + 1, y);
      assert x.ok && y == ApplyBase(NeverFail(), acts[i], x);
    }
  }

  lemma {:induction false} SidecarsSame(lands: Faults, acts: seq<Action>, i: nat, x: Applied)
    requires i <= |acts| && ApplySidecars(lands, acts, i, x).ok
    ensures x.ok && ApplySidecars(lands, acts, i, x) == ApplySidecars(NeverFail(), acts, i, x)
    decreases |acts| - i
  {
    if i < |acts| {
      var y := ApplySidecarOf(lands, acts[i], x);
      hide ApplySidecarOf;
      SidecarsSame(lands, acts, i + 1, y);
      SidecarSame(lands, acts[i], x);
    }
  }

  lemma SidecarSame(lands: Faults, a: Action, x: Applied)
    requires ApplySidecarOf(lands, a, x).ok
    ensures x.ok && ApplySidecarOf(lands, a, x) == ApplySidecarOf(NeverFail(), a, x)
  {
    hide NormalizeConflict;
  }

  lemma IndexesSame(lands: Faults, x: Applied)
    requires SaveIndexes(lands, x).ok
    ensures x.ok && SaveIndexes(lands, x) == SaveIndexes(NeverFail(), x)
  {
  }

  /** Whichever writes fail: a repair that reports success has done what it does when nothing fails. */
  lemma SuccessIsComplete(lands: Faults, s: Store, acts: seq<Action>)
    requires ApplyOk(lands, s, acts)
    ensures ApplyPlan(lands, s, acts) == ApplyPlan(NeverFail(), s, acts)
  {
    hide ApplyBases, ApplySidecars, SaveIndexes, KeptFrom, NewShas;
    var kept := KeptFrom(s.disk.state.shas, acts, 0, []);
    var x0 := Applied(s, true, false, false);
    var x1 := ApplyBases(lands, kept, 0, x0);
    var x2 := ApplySidecars(lands, kept, 0, x1);
    IndexesSame(lands, x2);
    SidecarsSame(lands, kept, 0, x1);
    BasesSame(lands, kept, 0, x0);
  }

  /** What page `p` is after a repair that succeeded: what its action makes of it, or what it was. */
  lemma RepairedPage(lands: Faults, s: Store, acts: seq<Action>, k: int, p: Path)
    requires ApplyOk(lands, s, acts) && Fits(s, acts) && OnlyAt(acts, k, p)
    ensures var t := SlotOf(s, p);
      SlotOf(ApplyPlan(lands, s, acts), p)
      == if 0 <= k < |acts| && acts[k].path == p then RepairedBy(acts[k], t)
         else t.(sha := ShaAt(s.disk.state.shas, p))
  {
    hide ApplyPlan, ApplyOk, SlotOf, RepairedBy, OnlyAt, Fits;
    SuccessIsComplete(lands, s, acts);
    PageWithoutFaults(NeverFail(), s, acts, k, p);
  }

  lemma PageWithoutFaults(lands: Faults, s: Store, acts: seq<Action>, k: int, p: Path)
    requires NoFaults(lands) && Fits(s, acts) && OnlyAt(acts, k, p)
    ensures var t := SlotOf(s, p);
      SlotOf(ApplyPlan(lands, s, acts), p)
      == if 0 <= k < |acts| && acts[k].path == p then RepairedBy(acts[k], t)
         else t.(sha := ShaAt(s.disk.state.shas, p))
  {
    AllKept(s, acts, 0);
    assert acts[..0] == [];
    var x0 := Applied(s, true, false, false);
    BasesApplied(lands, acts, 0, x0, k, p);
    var x1 := ApplyBases(lands, acts, 0, x0);
    SidecarsApplied(lands, acts, 0, x1, k, p);
    var x2 := ApplySidecars(lands, acts, 0, x1);
    IndexesKeepSlots(lands, x2, p);
    BasesMarked(lands, acts, 0, x0, s.disk.state);
    SidecarsMarked(lands, acts, 0, x1, s.disk.state);
    IndexesSaved(lands, x2, s.disk.state);
    ShasApplied(acts, 0, s.disk.state.shas, k, p);
    StateSlot(lands, SaveIndexes(lands, x2).store, s.disk.state.(shas := NewShas(acts, 0, s.disk.state.shas)), p);
    hide ApplyBases, ApplySidecars, SaveIndexes, NewShas, KeptFrom, SlotOf, SaveState, BasedBy, NotedBy, OnlyAt, Marked;
  }

  lemma StateSlot(lands: Faults, s: Store, state: SyncState, p: Path)
    ensures var t := s.(state := state); var u := SlotOf(s, p).(sha := ShaAt(state.shas, p));
      SlotOf(t, p) == u && SlotOf(SaveState(lands, t), p) == u
  {
  }

  // ---- Soundness of one repair ----

  ghost predicate Decided(s: Store, a: Action, raw: Bytes, at: Sha) {
    a == Decide(s, a.path, raw, at) && at != NoSha
  }

  /** A plan of `ensureBasePlan` fits the state it was made for. */
  lemma PlanFits(v: Server, s: Store, srv: Answers, acts: seq<Action>)
    requires ServerOk(v) && TrueStore(v, s) && HonestAnswers(v, srv) && Open(s.disk) == s
    requires OncePerPage(acts)
    requires forall a | a in acts :: Grounded(s, srv, a) && a.path in StaleSet(s)
    ensures Fits(s, acts) && TrueActions(v, acts)
  {
    forall k | 0 <= k < |acts|
      ensures TrueAction(v, acts[k]) && acts[k].oldSha == ShaAt(s.state.shas, acts[k].path)
    {
      assert acts[k] in acts;
      GroundedIsTrue(v, s, srv, acts[k]);
      hide TrueAction, TrueStore, HashOf;
    }
    hide Grounded, HashOf, TrueStore;
  }

  /** A page is stale exactly when it loads with a stale base, or with one whose file no longer verifies. */
  lemma StaleIff(s: Store, p: Path)
    ensures var b := BaseOf(s, p);
      Stale(s, p) <==> b.BaseStale? || (b.BaseValid? && HashOf(s.disk.baseFiles[p]) != b.hash)
  {
    hide HashOf;
  }

  /** Every applied action leaves a base that is valid and verifies. */
  lemma RepairedPageIsNotStale(lands: Faults, s: Store, acts: seq<Action>, k: nat, raw: Bytes, at: Sha)
    requires ApplyOk(lands, s, acts) && Fits(s, acts) && k < |acts| && Decided(s, acts[k], raw, at)
    ensures !Stale(ApplyPlan(lands, s, acts), acts[k].path)
  {
    hide HashOf, ApplyPlan, ApplyOk;
    RepairedPage(lands, s, acts, k, acts[k].path);
  }

  /** What a repair makes of a stale page, given the server content `raw` at `at`. A file that is that version is
      adopted, and its sidecar goes. Otherwise a base that still verifies is kept, page_shas goes back to its commit,
      and an edit made since, unless it was made of this very version, becomes a conflict with it. Otherwise the
      version is the base. In no case does the file change. */
  lemma RepairOutcome(lands: Faults, s: Store, acts: seq<Action>, k: nat, raw: Bytes, at: Sha)
    requires ApplyOk(lands, s, acts) && Fits(s, acts) && k < |acts| && Decided(s, acts[k], raw, at)
    ensures var p := acts[k].path; var t := SlotOf(s, p); var u := SlotOf(ApplyPlan(lands, s, acts), p);
      var c := Sanitize(raw); var valid := IsPage(s, p);
      var based := t.(base := Some(BaseRecord(at, HashOf(c))), baseFile := Some(c), sha := at);
      if valid && HashOf(t.file.value) == HashOf(c) then
        u == if t.sidecar.Some? then based.(sidecar := None, text := None) else based
      else if t.base.Some? && t.baseFile.Some? && HashOf(t.baseFile.value) == t.base.value.hash then
        u == if valid && HashOf(t.file.value) != t.base.value.hash && at != t.base.value.sha
             then t.(sha := t.base.value.sha,
                     sidecar := Some(ConflictRecord(at, t.base.value.sha, BothModified, c != EMPTY)),
                     text := if c == EMPTY then None else Some(c))
             else t.(sha := t.base.value.sha)
      else u == based
    ensures acts[k].reason.PathShaFixed? <==>
            !acts[k].reason.KeptPreviousBase? && at != ShaAt(s.state.shas, acts[k].path)
  {
    hide HashOf, ApplyPlan, ApplyOk, Fits;
    assert OnlyAt(acts, k, acts[k].path) by {
      FitsOnce(s, acts, k);
    }
    RepairedPage(lands, s, acts, k, acts[k].path);
  }

  lemma FitsOnce(s: Store, acts: seq<Action>, k: nat)
    requires Fits(s, acts) && k < |acts|
    ensures OnlyAt(acts, k, acts[k].path)
  {
  }

  lemma OtherPageKeepsItsBase(lands: Faults, s: Store, acts: seq<Action>, p: Path)
    requires ApplyOk(lands, s, acts) && Fits(s, acts) && s.state == s.disk.state && p !in ActedOn(acts)
    ensures Stale(ApplyPlan(lands, s, acts), p) == Stale(s, p)
  {
    hide HashOf, ApplyPlan, ApplyOk;
    assert OnlyAt(acts, -1, p);
    RepairedPage(lands, s, acts, -1, p);
  }

  /** A repaired page is settled as unchanged or incoming - and may then be overwritten by a pull - exactly when the
      working file, whatever the user saved since the plan was made, has the canonical form of the base the action
      stored: of the server version just read, or of the previous base that still verifies. A file the user edited is
      never among them. */
  lemma RepairHidesNoEdit(lands: Faults, s: Store, acts: seq<Action>, k: nat, raw: Bytes, at: Sha,
                          later: map<Path, Bytes>, listing: map<Path, Sha>)
    requires ApplyOk(lands, s, acts) && Fits(s, acts) && k < |acts| && Decided(s, acts[k], raw, at)
    requires acts[k].path in listing
    ensures var p := acts[k].path; var t := ApplyPlan(lands, s, acts);
      var stored := if acts[k].reason.KeptPreviousBase? then s.bases[p].hash else HashOf(Sanitize(raw));
      FactsState(Gather(t.(disk := t.disk.(files := later)), p, Some(listing))) in {Unchanged, Incoming}
      <==> LocalOf(later, p) == LocalValid(stored)
    ensures acts[k].reason.KeptPreviousBase? <==>
            LocalOf(s.disk.files, acts[k].path) != LocalValid(HashOf(Sanitize(raw))) && Verified(s, acts[k].path)
  {
    hide HashOf, ApplyPlan, ApplyOk;
    RepairedPage(lands, s, acts, k, acts[k].path);
  }

  // ---- Convergence ----

  /** One repair in which every request is answered and every write succeeds - `EnsureBase.RunRepair` shows that its
      runs are such: at most what exceeds the budget is left for another run. */
  ghost predicate RepairRun(lands: Faults, srv: Answers, d: Disk, e: Disk, budget: nat, acts: seq<Action>) {
    var s := Open(d);
    && Fits(s, acts) && (forall a | a in acts :: Grounded(s, srv, a) && a.path in StaleSet(s))
    && |StaleSet(s) - ActedOn(acts)| <= (if |StaleSet(s)| < budget then 0 else |StaleSet(s)| - budget)
    && e == ApplyPlan(lands, s, acts).disk
  }

  lemma GroundedIsDecided(s: Store, srv: Answers, a: Action)
    requires Grounded(s, srv, a) && ShaAt(s.state.shas, a.path) != NoSha
    ensures exists raw, at :: Decided(s, a, raw, at)
  {
    hide Decide;
    var sha := ShaAt(s.state.shas, a.path);
    if srv.read(a.path).error.None? && srv.read(a.path).sha == sha
        && a == Decide(s, a.path, srv.read(a.path).body, sha) {
      assert Decided(s, a, srv.read(a.path).body, sha);
    } else if a.path in srv.pulled && srv.pulled[a.path].1 == sha && a == Decide(s, a.path, srv.pulled[a.path].0, sha) {
      assert Decided(s, a, srv.pulled[a.path].0, sha);
    } else {
      assert Decided(s, a, srv.readAt(a.path).body, srv.readAt(a.path).sha);
    }
  }

  lemma StaleMeans(s: Store, p: Path)
    ensures p in StaleSet(s) <==> Stale(s, p)
    ensures Stale(s, p) ==> ShaAt(s.state.shas, p) != NoSha
  {
  }

  /** What is stale after a run is what was stale and not acted on. */
  lemma RunLeaves(lands: Faults, srv: Answers, d: Disk, e: Disk, budget: nat, acts: seq<Action>)
    requires NoFaults(lands) && RepairRun(lands, srv, d, e, budget, acts)
    ensures StaleSet(Open(e)) == StaleSet(Open(d)) - ActedOn(acts)
  {
    hide Stale, Grounded, Fits, ApplyPlan, ApplyOk;
    var s := Open(d);
    var t := ApplyPlan(lands, s, acts);
    RepairSaved(lands, s, acts);
    forall p
      ensures p in StaleSet(t) <==> p in StaleSet(s) && p !in ActedOn(acts)
    {
      StaleMeans(s, p);
      StaleMeans(t, p);
      if p in ActedOn(acts) {
        var k :| 0 <= k < |acts| && acts[k].path == p;
        assert acts[k] in acts && p in StaleSet(s);
        GroundedIsDecided(s, srv, acts[k]);
        var raw, at :| Decided(s, acts[k], raw, at);
        RepairedPageIsNotStale(lands, s, acts, k, raw, at);
      } else {
        OtherPageKeepsItsBase(lands, s, acts, p);
      }
    }
  }

  lemma RunShrinks(lands: Faults, srv: Answers, d: Disk, e: Disk, budget: nat, acts: seq<Action>)
    requires NoFaults(lands) && RepairRun(lands, srv, d, e, budget, acts)
    ensures |StaleSet(Open(e))| <= if |StaleSet(Open(d))| < budget then 0 else |StaleSet(Open(d))| - budget
  {
    RunLeaves(lands, srv, d, e, budget, acts);
  }

  /** `disks` are the states between consecutive repairs with these answers and plans. */
  ghost predicate Repairs(lands: Faults, srvs: seq<Answers>, disks: seq<Disk>, budget: nat, plans: seq<seq<Action>>) {
    && |disks| == |srvs| + 1 == |plans| + 1
    && forall i | 0 <= i < |srvs| :: RepairRun(lands, srvs[i], disks[i], disks[i + 1], budget, plans[i])
  }

  lemma {:induction false} StaleAfter(lands: Faults, srvs: seq<Answers>, disks: seq<Disk>, budget: nat,
                                      plans: seq<seq<Action>>, n: nat)
    requires NoFaults(lands) && Repairs(lands, srvs, disks, budget, plans) && n < |disks|
    ensures var k := |StaleSet(Open(disks[0]))|;
      |StaleSet(Open(disks[n]))| <= if k < n * budget then 0 else k - n * budget
  {
    hide StaleSet, Open, RepairRun;
    if n > 0 {
      StaleAfter(lands, srvs, disks, budget, plans, n - 1);
      RunShrinks(lands, srvs[n - 1], disks[n - 1], disks[n], budget, plans[n - 1]);
      assert n * budget == (n - 1) * budget + budget;
    }
  }

  /** Once all requests are answered, k stale pages are down to none after any n repairs with n * budget >= k, that is
      after the k / budget of them, rounded up. */
  lemma RepairConverges(lands: Faults, srvs: seq<Answers>, disks: seq<Disk>, budget: nat, plans: seq<seq<Action>>)
    requires NoFaults(lands) && Repairs(lands, srvs, disks, budget, plans)
    requires |srvs| * budget >= |StaleSet(Open(disks[0]))|
    ensures StaleSet(Open(disks[|srvs|])) == {}
  {
    StaleAfter(lands, srvs, disks, budget, plans, |srvs|);
  }
}

/** `EnsureBase` (internal/syncops/ensurebase.go) and the accounting of a whole repair. */
module EnsureBase {
  import opened Basics
  import opened Pages
  import opened Contract
  import opened Hub
  import opened Repair
  import opened RepairPlan
  import opened RepairSafety

  /** The stale paths of a view, in its order. */
  method StalePaths(s: Store, entries: seq<Path>) returns (stale: seq<Path>)
    requires Distinct(entries)
    ensures Distinct(stale) && forall p :: p in stale <==> p in entries && Stale(s, p)
  {
    stale := [];
    for i := 0 to |entries|
      invariant Distinct(stale) && forall p :: p in stale <==> p in entries[..i] && Stale(s, p)
    {
      assert entries[..i + 1] == entries[..i] + [entries[i]];
      if Stale(s, entries[i]) {
        stale := stale + [entries[i]];
      }
    }
    assert entries[..|entries|] == entries;
  }

  lemma {:induction false} KeptOrDropped(shas: map<Path, Sha>, acts: seq<Action>, i: nat, found: seq<Action>)
    requires i <= |acts|
    ensures forall a :: a in KeptFrom(shas, acts, i, found)
                        <==> a in found || (a in acts[i..] && ShaAt(shas, a.path) == a.oldSha)
    decreases |acts| - i
  {
    if i < |acts| {
      assert acts[i..] == [acts[i]] + acts[i + 1..];
      KeptOrDropped(shas, acts, i + 1,
                    if ShaAt(shas, acts[i].path) == acts[i].oldSha then found + [acts[i]] else found);
    }
  }

  /** What a run reports: each stale path repaired, or left with a reason. */
  datatype Report = Report(repaired: set<Path>, unverified: map<Path, Skip>)

  ghost predicate Accounts(r: Report, stale: set<Path>) {
    r.repaired !! r.unverified.Keys && r.repaired + r.unverified.Keys == stale
  }

  lemma KeptActed(shas: map<Path, Sha>, acts: seq<Action>)
    ensures ActedOn(KeptFrom(shas, acts, 0, [])) <= ActedOn(acts)
  {
    KeptOrDropped(shas, acts, 0, []);
    assert acts[0..] == acts;
  }

  /** Actions dropped because state.json changed are reported as skipped. */
  function Tally(acts: seq<Action>, kept: seq<Action>, skipped: map<Path, Skip>): Report {
    Report(ActedOn(kept), skipped + map p | p in ActedOn(acts) - ActedOn(kept) :: StateChanged)
  }

  lemma TallyAccounts(acts: seq<Action>, shas: map<Path, Sha>, skipped: map<Path, Skip>)
    requires ActedOn(acts) !! skipped.Keys
    ensures var r := Tally(acts, KeptFrom(shas, acts, 0, []), skipped);
      && Accounts(r, ActedOn(acts) + skipped.Keys)
      && forall p | p in r.unverified :: r.unverified[p] == if p in ActedOn(acts) then StateChanged else skipped[p]
  {
    KeptActed(shas, acts);
    hide ActedOn, KeptFrom;
  }

  /** An action is dropped exactly when the page_shas value it was made for has changed. */
  lemma KeptUnlessChanged(s: Store, srv: Answers, acts: seq<Action>, now: SyncState)
    requires forall a | a in acts :: Grounded(s, srv, a)
    ensures forall p :: p in ActedOn(KeptFrom(now.shas, acts, 0, []))
                        <==> p in ActedOn(acts) && ShaAt(now.shas, p) == ShaAt(s.state.shas, p)
  {
    hide HashOf, Verified;
    KeptOrDropped(now.shas, acts, 0, []);
    assert acts[0..] == acts;
    assert forall a | a in acts :: a.oldSha == ShaAt(s.state.shas, a.path);
    hide Grounded, KeptFrom;
    forall p | p in ActedOn(acts) && ShaAt(now.shas, p) == ShaAt(s.state.shas, p)
      ensures p in ActedOn(KeptFrom(now.shas, acts, 0, []))
    {
      var a :| a in acts && a.path == p;
      assert a in KeptFrom(now.shas, acts, 0, []);
    }
  }

  /** The pages that one read of HEAD repairs, of those whose page_shas value stays what it was, are all repaired. */
  ghost predicate HeadRepaired(s: Store, srv: Answers, listing: map<Path, Sha>, stale: set<Path>, now: SyncState,
                               r: Report) {
    forall p | p in stale && IsAtHead(s, srv, listing, p) && ShaAt(now.shas, p) == ShaAt(s.state.shas, p) ::
      p in r.repaired
  }

  lemma PlanRepairsHead(pl: Planner, listing: map<Path, Sha>, stale: seq<Path>, now: SyncState,
                        skipped: map<Path, Skip>)
    requires pl.Valid() && AtHead(pl.s, pl.srv, listing, stale) <= ActedOn(pl.actions)
    ensures HeadRepaired(pl.s, pl.srv, listing, SetOf(stale), now,
                         Tally(pl.actions, KeptFrom(now.shas, pl.actions, 0, []), skipped))
    ensures HeadRepaired(pl.s, pl.srv, listing, SetOf(stale), now, Tally(pl.actions, pl.actions, skipped))
  {
    KeptUnlessChanged(pl.s, pl.srv, pl.actions, now);
    hide IsAtHead, Grounded, KeptFrom, ActedOn;
  }

  // ---- What repaired means ----

  /** The hub is true, and so is what the server answers. */
  ghost predicate HonestWorld(v: Server, s: Store, srv: Answers) {
    ServerOk(v) && TrueStore(v, s) && HonestAnswers(v, srv)
  }

  /** A plan of `ensureBasePlan` for the state `s`. */
  ghost predicate PlanFor(s: Store, srv: Answers, acts: seq<Action>) {
    && OncePerPage(acts)
    && (forall a | a in acts :: Grounded(s, srv, a) && a.path in StaleSet(s))
  }

  /** The store once state.json has changed on disk. */
  function Changed(s: Store, now: SyncState): Store {
    s.(disk := s.disk.(state := now))
  }

  lemma {:induction false} KeptOncePerPage(shas: map<Path, Sha>, acts: seq<Action>, i: nat, found: seq<Action>)
    requires i <= |acts| && OncePerPage(found + acts[i..])
    ensures OncePerPage(KeptFrom(shas, acts, i, found))
    decreases |acts| - i
  {
    if i < |acts| {
      var all := found + acts[i..];
      assert all[|found|] == acts[i];
      if ShaAt(shas, acts[i].path) == acts[i].oldSha {
        assert found + [acts[i]] + acts[i + 1..] == all;
        KeptOncePerPage(shas, acts, i + 1, found + [acts[i]]);
      } else {
        var rest := found + acts[i + 1..];
        assert forall k | 0 <= k < |rest| :: rest[k] == all[if k < |found| then k else k + 1];
        KeptOncePerPage(shas, acts, i + 1, found);
      }
    } else {
      assert found + acts[i..] == found;
    }
  }

  /** The actions kept fit the state.json they were kept for. */
  lemma KeptFit(v: Server, s: Store, srv: Answers, acts: seq<Action>, now: SyncState)
    requires HonestWorld(v, s, srv) && Open(s.disk) == s && PlanFor(s, srv, acts)
    ensures var kept := KeptFrom(now.shas, acts, 0, []);
      && Fits(Changed(s, now), kept)
      && forall k | 0 <= k < |kept| :: kept[k] in acts
  {
    hide HonestWorld, PlanFor, Fits;
    FitsNow(v, s, srv, acts);
    assert [] + acts[0..] == acts;
    assert OncePerPage(acts) by { FitsMeans(s, acts); }
    KeptOncePerPage(now.shas, acts, 0, []);
    KeptOrDropped(now.shas, acts, 0, []);
    SomeFit(s, acts, now, KeptFrom(now.shas, acts, 0, []));
  }

  lemma FitsMeans(s: Store, acts: seq<Action>)
    requires Fits(s, acts)
    ensures OncePerPage(acts)
  {
  }

  lemma SomeFit(s: Store, acts: seq<Action>, now: SyncState, kept: seq<Action>)
    requires Fits(s, acts) && OncePerPage(kept)
    requires forall a | a in kept :: a in acts && ShaAt(now.shas, a.path) == a.oldSha
    ensures Fits(Changed(s, now), kept) && forall k | 0 <= k < |kept| :: kept[k] in acts
  {
    forall k | 0 <= k < |kept|
      ensures kept[k] in acts && ShaAt(now.shas, kept[k].path) == kept[k].oldSha && kept[k].newSha != NoSha
      ensures kept[k].sidecar.Some? ==> kept[k].sidecar.value.0.serverSha != NoSha
    {
      assert kept[k] in kept;
      var j :| 0 <= j < |acts| && acts[j] == kept[k];
    }
  }

  /** A plan is applied as its kept actions are. */
  lemma KeptPlan(lands: Faults, v: Server, s: Store, srv: Answers, acts: seq<Action>, now: SyncState)
    requires HonestWorld(v, s, srv) && Open(s.disk) == s && PlanFor(s, srv, acts)
    ensures var t := Changed(s, now); var kept := KeptFrom(now.shas, acts, 0, []);
      && Fits(t, kept) && (forall k | 0 <= k < |kept| :: kept[k] in acts)
      && ApplyPlan(lands, t, acts) == ApplyPlan(lands, t, kept) && ApplyOk(lands, t, acts) == ApplyOk(lands, t, kept)
  {
    hide Grounded, HashOf, HonestWorld, Fits, ApplyStores, NewShas, KeptFrom, Stale, Decide;
    var t := Changed(s, now);
    var kept := KeptFrom(now.shas, acts, 0, []);
    KeptFit(v, s, srv, acts, now);
    assert kept[..0] == [];
    AllKept(t, kept, 0);
  }

  /** When the application succeeds - as it does when no write fails -, everything reported as repaired has a base that
      is valid and verifies, whatever an old binary did to state.json meanwhile. */
  lemma KeptAreRepaired(lands: Faults, v: Server, s: Store, srv: Answers, acts: seq<Action>, now: SyncState)
    requires HonestWorld(v, s, srv) && Open(s.disk) == s && PlanFor(s, srv, acts)
    ensures NoFaults(lands) ==> ApplyOk(lands, Changed(s, now), acts)
    ensures ApplyOk(lands, Changed(s, now), acts) ==> forall p | p in ActedOn(KeptFrom(now.shas, acts, 0, [])) ::
              !Stale(ApplyPlan(lands, Changed(s, now), acts), p)
  {
    hide Grounded, HashOf, HonestWorld, Fits, ApplyPlan, ApplyOk, KeptFrom, Stale, Decide;
    var t := Changed(s, now);
    var kept := KeptFrom(now.shas, acts, 0, []);
    KeptPlan(lands, v, s, srv, acts, now);
    if NoFaults(lands) {
      RepairSaved(lands, t, kept);
    }
    if ApplyOk(lands, t, kept) {
      forall p | p in ActedOn(kept)
        ensures !Stale(ApplyPlan(lands, t, kept), p)
      {
        var k :| 0 <= k < |kept| && kept[k].path == p;
        StaleMeans(s, p);
        GroundedIsDecided(s, srv, kept[k]);
        var raw, at :| Decided(s, kept[k], raw, at);
        SameDecision(s, now, kept[k], raw, at);
        RepairedPageIsNotStale(lands, t, kept, k, raw, at);
      }
    }
  }

  lemma FitsNow(v: Server, s: Store, srv: Answers, acts: seq<Action>)
    requires HonestWorld(v, s, srv) && Open(s.disk) == s && PlanFor(s, srv, acts)
    ensures Fits(s, acts)
  {
    hide Grounded, HashOf, TrueStore, HonestAnswers, Fits;
    PlanFits(v, s, srv, acts);
  }

  lemma SameDecision(s: Store, now: SyncState, a: Action, raw: Bytes, at: Sha)
    requires Decided(s, a, raw, at)
    ensures Decided(Changed(s, now), a, raw, at)
  {
  }

  lemma PlanIsFor(pl: Planner, stale: seq<Path>)
    requires pl.Valid() && ActedOn(pl.actions) <= SetOf(stale) <= StaleSet(pl.s)
    ensures PlanFor(pl.s, pl.srv, pl.actions)
  {
    hide StaleSet, Grounded;
    forall a | a in pl.actions
      ensures a.path in ActedOn(pl.actions)
    {
    }
  }

  /** What a plan leaves is what it skipped. */
  lemma LeftOver(s: Store, stale: seq<Path>, acts: seq<Action>, skipped: map<Path, Skip>)
    requires Distinct(stale) && SetOf(stale) == StaleSet(s)
    requires ActedOn(acts) + skipped.Keys == SetOf(stale) && ActedOn(acts) !! skipped.Keys
    ensures |StaleSet(s)| == |stale| && StaleSet(s) - ActedOn(acts) == skipped.Keys
  {
    CountOf(stale);
  }

  // ---- One run ----

  /** A dry run reports its plan. */
  lemma AllTally(acts: seq<Action>, skipped: map<Path, Skip>)
    requires ActedOn(acts) !! skipped.Keys
    ensures Accounts(Tally(acts, acts, skipped), ActedOn(acts) + skipped.Keys)
  {
  }

  /** What an old binary, which takes no lock, writes to state.json while the plan is being made. */
  type Meanwhile = SyncState -> SyncState

  datatype Outcome = Done | Cancelled | WriteFailed

  /** What a run amounts to when nothing fails. */
  lemma RunAmounts(lands: Faults, v: Server, s: Store, srv: Answers, stale: seq<Path>, acts: seq<Action>,
                   skipped: map<Path, Skip>, now: SyncState, budget: nat)
    requires NoFaults(lands) && HonestWorld(v, s, srv) && Open(s.disk) == s && PlanFor(s, srv, acts) && Distinct(stale)
    requires ActedOn(acts) + skipped.Keys == SetOf(stale) && ActedOn(acts) !! skipped.Keys
    ensures now == s.disk.state && SetOf(stale) == StaleSet(s)
            && |skipped.Keys| <= (if |stale| < budget then 0 else |stale| - budget) ==>
      var t := ApplyPlan(lands, Changed(s, now), acts);
      t == Open(t.disk) && RepairRun(lands, srv, s.disk, t.disk, budget, acts)
  {
    hide Stale, Grounded, HonestWorld, ApplyPlan, ApplyOk, KeptFrom, Fits, NoFaults;
    if now == s.disk.state && SetOf(stale) == StaleSet(s) {
      FitsNow(v, s, srv, acts);
      assert Changed(s, now) == s;
      RepairSaved(lands, s, acts);
      LeftOver(s, stale, acts, skipped);
    }
  }

  /** Nothing was repaired. */
  function Unrepaired(stale: seq<Path>, why: Skip): (r: Report)
    ensures r.repaired == {} && r.unverified.Keys == SetOf(stale) && Accounts(r, SetOf(stale))
    ensures forall p | p in r.unverified :: r.unverified[p] == why
  {
    Report({}, map p | p in stale :: why)
  }

  /** Planning and applying: the part `Repair` and `EnsureBase` share. When the caller's context ends first nothing
      is written; when a write fails nothing is reported as repaired. Whichever writes fail, every page reported as
      repaired has a base that is valid and verifies; and with nothing failing, when moreover every request is answered
      and nobody else writes state.json, this is a run in the sense of `RepairSafety.RepairConverges`. A context with a
      deadline of its own may end the plan early without cancelling the command. A dry run reports its plan and writes
      nothing. */
  method PlanAndApply(hub: OpenHub, ghost v: Server, listing: map<Path, Sha>, srv: Answers, stale: seq<Path>,
                      budget: nat, conc: nat, pagesAt: bool, cancellable: bool, deadline: bool, dryRun: bool,
                      meanwhile: Meanwhile)
    returns (r: Report, out: Outcome, ghost acts: seq<Action>)
    requires hub.Value() == Open(hub.disk) && Distinct(stale) && SetOf(stale) <= StaleSet(hub.Value())
    modifies hub
    ensures Accounts(r, SetOf(stale)) && (!out.Done? ==> r.repaired == {})
    ensures forall p | p in r.unverified ::
              && (out.WriteFailed? ==> r.unverified[p] == NotApplied)
              && (out.Cancelled? ==> r.unverified[p] == BudgetExhausted)
    ensures hub.disk.files == old(hub.disk.files) && hub.disk.backups == old(hub.disk.backups)
    ensures out.Cancelled? ==> cancellable && hub.disk == old(hub.disk)
    ensures dryRun ==> hub.disk == old(hub.disk) && !out.WriteFailed?
    ensures OnlyPathsFail(srv) && !cancellable && !out.WriteFailed? ==>
      HeadRepaired(old(hub.Value()), srv, listing, SetOf(stale), meanwhile(old(hub.disk.state)), r)
    ensures HonestWorld(v, old(hub.Value()), srv) && !dryRun ==>
      && (forall p | p in r.repaired :: !Stale(hub.Value(), p))
      && (NoFaults(hub.lands) ==> !out.WriteFailed?)
    ensures NoFaults(hub.lands) && HonestWorld(v, old(hub.Value()), srv) && AllAnswer(srv) && pagesAt && !cancellable
            && !dryRun && SetOf(stale) == StaleSet(old(hub.Value()))
            && meanwhile(old(hub.disk.state)) == old(hub.disk.state) ==>
      hub.Value() == Open(hub.disk) && RepairRun(hub.lands, srv, old(hub.disk), hub.disk, budget, acts)
  {
    hide StaleSet, SetOf, ActedOn, Distinct, Stale, Grounded, HonestWorld, AllAnswer, ApplyPlan, ApplyOk, KeptFrom,
         Fits, NoFaults, RepairRun, Accounts, PlanFor, OnlyPathsFail, HeadRepaired, AtHead;
    ghost var s := hub.Value();
    var pl := Plan(Store(hub.disk, hub.bases, hub.conflicts, hub.state), srv, listing, stale, budget, conc, pagesAt,
                   cancellable);
    acts := pl.actions;
    ghost var skipped := pl.skipped;
    PlanIsFor(pl, stale);
    if AtHead(s, srv, listing, stale) <= ActedOn(pl.actions) {
      PlanRepairsHead(pl, listing, stale, meanwhile(hub.disk.state), pl.skipped);
    }
    if cancellable {
      var ended := *;
      if ended || (pl.done && !deadline) {
        r, out := Unrepaired(stale, BudgetExhausted), Cancelled;
        return;
      }
    }
    if dryRun {
      AllTally(pl.actions, pl.skipped);
      return Tally(pl.actions, pl.actions, pl.skipped), Done, pl.actions;
    }
    ghost var now := meanwhile(hub.disk.state);
    hub.disk := hub.disk.(state := meanwhile(hub.disk.state));
    assert hub.Value() == Changed(s, now);
    RepairLeavesFiles(hub.lands, hub.Value(), acts);
    TallyAccounts(acts, now.shas, skipped);
    if HonestWorld(v, s, srv) {
      KeptAreRepaired(hub.lands, v, s, srv, acts, now);
      if NoFaults(hub.lands) {
        RunAmounts(hub.lands, v, s, srv, stale, acts, skipped, now, budget);
      }
    }
    var kept, ok := RunApply(hub, pl.actions);
    if ok {
      r, out := Tally(pl.actions, kept, pl.skipped), Done;
    } else {
      r, out := Unrepaired(stale, NotApplied), WriteFailed;
    }
  }

  // ---- The two commands ----

  /** The paths a command looks at, in the order of the hub's view. */
  type Paths = Disk -> seq<Path>

  ghost predicate Ordered(paths: Paths) {
    forall d :: Distinct(paths(d))
  }

  /** No filter: pages with a page_shas value are always in the view. */
  ghost predicate WholeView(paths: Paths) {
    Ordered(paths) && forall d: Disk, p: Path | ShaAt(d.state.shas, p) != NoSha :: p in paths(d)
  }

  function StaleIn(d: Disk, ps: seq<Path>): set<Path> {
    set p | p in ps && Stale(Open(d), p)
  }

  lemma ViewShowsAll(paths: Paths, d: Disk)
    requires WholeView(paths)
    ensures StaleIn(d, paths(d)) == StaleSet(Open(d))
  {
    forall p
      ensures p in StaleSet(Open(d)) ==> p in paths(d)
    {
      StaleMeans(Open(d), p);
    }
  }

  lemma OnlyStale(d: Disk, ps: seq<Path>)
    ensures StaleIn(d, ps) <= StaleSet(Open(d))
  {
    forall p | p in StaleIn(d, ps)
      ensures p in StaleSet(Open(d))
    {
      StaleMeans(Open(d), p);
    }
  }

  /** `repairLoad` on a freshly opened hub. */
  method Load(hub: OpenHub, paths: Paths) returns (stale: seq<Path>)
    requires hub.Value() == Open(hub.disk) && Ordered(paths)
    ensures Distinct(stale) && SetOf(stale) == StaleIn(hub.disk, paths(hub.disk)) <= StaleSet(hub.Value())
  {
    OnlyStale(hub.disk, paths(hub.disk));
    hide Stale, StaleSet;
    stale := StalePaths(Store(hub.disk, hub.bases, hub.conflicts, hub.state), paths(hub.disk));
  }

  /** `RepairOptions`: a budget below 1 means the default, as does a concurrency below 1 or above the maximum. */
  function BudgetOf(max: int): (r: nat)
    ensures r >= 1 && (max >= 1 ==> r == max) && (max < 1 ==> r == 50)
  {
    if max <= 0 then DEFAULT_BUDGET else max
  }

  function ConcurrencyOf(conc: int): (r: nat)
    ensures 1 <= r <= 4 && (1 <= conc <= 4 ==> r == conc) && (conc < 1 || conc > 4 ==> r == 4)
  {
    if conc <= 0 || conc > MAX_CONCURRENCY then MAX_CONCURRENCY else conc
  }

  /** `Repair`, once it has the lock and the listing: each stale page ends repaired or skipped, none of the working
      files changes, and what is reported as repaired is. With nothing failing it is one of the runs
      `RepairConverges` counts. */
  method RunRepair(hub: OpenHub, ghost v: Server, listing: map<Path, Sha>, srv: Answers, paths: Paths,
                   budget: int, conc: int, pagesAt: bool, cancellable: bool, dryRun: bool, meanwhile: Meanwhile)
    returns (r: Report, out: Outcome, ghost acts: seq<Action>)
    requires hub.Value() == Open(hub.disk) && WholeView(paths)
    modifies hub
    ensures Accounts(r, StaleSet(old(hub.Value()))) && (!out.Done? ==> r.repaired == {})
    ensures hub.disk.files == old(hub.disk.files) && hub.disk.backups == old(hub.disk.backups)
    ensures out.Cancelled? ==> cancellable && hub.disk == old(hub.disk)
    ensures dryRun ==> hub.disk == old(hub.disk) && !out.WriteFailed?
    ensures OnlyPathsFail(srv) && !cancellable && !out.WriteFailed? ==>
      HeadRepaired(old(hub.Value()), srv, listing, StaleSet(old(hub.Value())), meanwhile(old(hub.disk.state)), r)
    ensures HonestWorld(v, old(hub.Value()), srv) && !dryRun ==>
      && (forall p | p in r.repaired :: !Stale(hub.Value(), p))
      && (NoFaults(hub.lands) ==> !out.WriteFailed?)
    ensures NoFaults(hub.lands) && HonestWorld(v, old(hub.Value()), srv) && AllAnswer(srv) && pagesAt && !cancellable
            && !dryRun && meanwhile(old(hub.disk.state)) == old(hub.disk.state) ==>
      && hub.Value() == Open(hub.disk)
      && RepairRun(hub.lands, srv, old(hub.disk), hub.disk, BudgetOf(budget), acts)
  {
    ViewShowsAll(paths, hub.disk);
    hide StaleSet, SetOf, Stale, NoFaults, HonestWorld, AllAnswer, RepairRun, Accounts, WholeView, StaleIn,
         OnlyPathsFail, HeadRepaired;
    var stale := Load(hub, paths);
    r, out, acts := PlanAndApply(hub, v, listing, srv, stale, BudgetOf(budget), ConcurrencyOf(conc), pagesAt,
                                 cancellable, false, dryRun, meanwhile);
  }

  /** `EnsureBase`. Without a listing it does nothing. When it must take the lock itself and cannot, every stale path
      stays unverified; when it can, it decides on what is on disk then, after whatever the holder it waited behind
      did. Every stale path ends repaired or unverified, never both, and repaired means a base that is valid and
      verifies; after a failed write or a cancellation nothing is reported as repaired. `was` is the disk it decides
      on. */
  method Ensure(hub: OpenHub, ghost v: Server, listing: Option<map<Path, Sha>>, srv: Answers,
                paths: Paths, locked: bool, lockFree: bool, waited: Disk -> Disk, pagesAt: bool,
                cancellable: bool, meanwhile: Meanwhile)
    returns (r: Report, out: Outcome, ghost was: Disk)
    requires hub.Value() == Open(hub.disk) && Ordered(paths)
    modifies hub
    ensures was == old(hub.disk)
         || (listing.Some? && !locked && lockFree && StaleIn(old(hub.disk), paths(old(hub.disk))) != {}
             && was == waited(old(hub.disk)))
    ensures listing.None? ==> r == Report({}, map[]) && hub.disk == was
    ensures listing.Some? ==> Accounts(r, StaleIn(was, paths(was)))
    ensures StaleIn(was, paths(was)) == {} ==> hub.disk == was
    ensures !locked && !lockFree ==> r.repaired == {} && hub.disk == was
    ensures !locked && !lockFree && !cancellable ==> forall p | p in r.unverified :: r.unverified[p] == LockBusy
    ensures hub.disk.files == was.files && hub.disk.backups == was.backups
    ensures !out.Done? ==> r.repaired == {}
    ensures out.Cancelled? ==> cancellable && hub.disk == was
    ensures listing.Some? && (locked || lockFree) && OnlyPathsFail(srv) && !cancellable && !out.WriteFailed? ==>
      HeadRepaired(Open(was), srv, listing.value, StaleIn(was, paths(was)), meanwhile(was.state), r)
    ensures HonestWorld(v, Open(was), srv) ==>
      && (forall p | p in r.repaired :: !Stale(hub.Value(), p))
      && (NoFaults(hub.lands) ==> !out.WriteFailed?)
  {
    hide StaleSet, Stale, NoFaults, HonestWorld, Accounts, Ordered, StaleIn, OnlyPathsFail;
    was := hub.disk;
    if listing.None? {
      return Report({}, map[]), Done, was;
    }
    var stale := Load(hub, paths);
    if stale == [] {
      NothingIn();
      return Unrepaired(stale, LockBusy), Done, was;
    }
    assert stale[0] in SetOf(stale);
    if cancellable {
      var ended := *;
      if ended {
        return Unrepaired(stale, BudgetExhausted), Cancelled, was;
      }
    }
    if !locked {
      if !lockFree {
        return Unrepaired(stale, LockBusy), Done, was;
      }
      hub.disk := waited(hub.disk);
      hub.bases, hub.conflicts, hub.state := hub.disk.bases, hub.disk.conflicts, hub.disk.state;
      was := hub.disk;
      stale := Load(hub, paths);
      if stale == [] {
        return Unrepaired(stale, LockBusy), Done, was;
      }
    }
    assert stale[0] in SetOf(stale);
    ghost var acts;
    r, out, acts := PlanAndApply(hub, v, listing.value, srv, stale, DEFAULT_BUDGET, MAX_CONCURRENCY, pagesAt,
                                 cancellable, !locked, false, meanwhile);
  }
}

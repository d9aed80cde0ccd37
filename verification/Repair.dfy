/** Base repair (internal/syncops/repair.go, ensurebase.go): plan what to do about every stale base, then do it. */
module Repair {
  import opened Basics
  import opened Pages
  import opened Contract
  import opened Hub

  const DEFAULT_BUDGET: nat := 50
  const MAX_CONCURRENCY: nat := 4
  const PULL_THRESHOLD: nat := 8

  /** Contract error codes of a failed request; the first four concern only their path. */
  datatype Code = ShaNotFound | PageNotFound | Usage | InvalidPath | OtherCode(name: string)

  datatype Skip = ServerUnsupported | BudgetExhausted | StateChanged | LockBusy | NotApplied | Failed(code: Code)

  predicate PathSpecific(why: Skip) {
    why.Failed? && !why.code.OtherCode?
  }

  /** `repairLoad`: a page_shas value without a base that is valid and still verifies. */
  predicate Stale(s: Store, p: Path) {
    ShaAt(s.state.shas, p) != NoSha && !(BaseIsValid(s, p, ShaAt(s.state.shas, p)) && Verified(s, p))
  }

  function StaleSet(s: Store): set<Path> {
    set p | p in s.state.shas && Stale(s, p)
  }

  // ---- The decision ----

  datatype Reason = Backfill | PathShaFixed | KeptPreviousBase

  datatype Action = Action(path: Path, oldSha: Sha, newSha: Sha, reason: Reason, base: Option<Bytes>,
                           sidecar: Option<(ConflictRecord, Bytes)>, clearSidecar: bool)

  /** `decide`: what to do about path `p`, given the server content `raw` at its commit `at`. */
  function Decide(s: Store, p: Path, raw: Bytes, at: Sha): Action {
    var c := Sanitize(raw);
    var sha := ShaAt(s.state.shas, p);
    var local := LocalOf(s.disk.files, p);
    var fixed := if at != sha then PathShaFixed else Backfill;
    if local == LocalValid(HashOf(c)) then Action(p, sha, at, fixed, Some(c), None, p in s.conflicts)
    else if Verified(s, p) then
      var rec := s.bases[p];
      var edited := local.LocalValid? && local.hash != rec.hash && at != rec.sha;
      Action(p, sha, rec.sha, KeptPreviousBase, None,
             if edited then Some((ConflictRecord(at, rec.sha, BothModified, c != EMPTY), c)) else None, false)
    else Action(p, sha, at, fixed, Some(c), None, false)
  }

  // ---- Apply ----

  /** The store, and whether every write so far succeeded. */
  datatype Applied = Applied(store: Store, ok: bool, bases: bool, conflicts: bool)

  /** The actions whose page_shas value is still the one the plan was made for. */
  function KeptFrom(shas: map<Path, Sha>, acts: seq<Action>, i: nat, found: seq<Action>): seq<Action>
    requires i <= |acts|
    decreases |acts| - i
  {
    if i == |acts| then found
    else KeptFrom(shas, acts, i + 1, if ShaAt(shas, acts[i].path) == acts[i].oldSha then found + [acts[i]] else found)
  }

  function ApplyBase(lands: Faults, a: Action, x: Applied): Applied {
    if !x.ok || a.base.None? then x
    else x.(store := PutBase(lands, x.store, a.path, a.base.value, a.newSha), ok := PutBaseOk(lands, x.store, a.newSha),
            bases := x.bases || PutBaseOk(lands, x.store, a.newSha))
  }

  function ApplySidecarOf(lands: Faults, a: Action, x: Applied): Applied {
    if !x.ok then x
    else if a.sidecar.Some? then
      var (rec, c) := a.sidecar.value;
      x.(store := PutConflict(lands, x.store, a.path, rec, c), ok := PutConflictOk(lands, x.store, rec),
         conflicts := x.conflicts || PutConflictOk(lands, x.store, rec))
    else if a.clearSidecar then
      x.(store := ClearConflict(lands, x.store, a.path), ok := lands(x.store.disk.writes),
         conflicts := x.conflicts || lands(x.store.disk.writes))
    else x
  }

  function ApplyBases(lands: Faults, acts: seq<Action>, i: nat, x: Applied): Applied
    requires i <= |acts|
    decreases |acts| - i
  {
    if i == |acts| then x else ApplyBases(lands, acts, i + 1, ApplyBase(lands, acts[i], x))
  }

  function ApplySidecars(lands: Faults, acts: seq<Action>, i: nat, x: Applied): Applied
    requires i <= |acts|
    decreases |acts| - i
  {
    if i == |acts| then x else ApplySidecars(lands, acts, i + 1, ApplySidecarOf(lands, acts[i], x))
  }

  function NewShas(acts: seq<Action>, i: nat, shas: map<Path, Sha>): map<Path, Sha>
    requires i <= |acts|
    decreases |acts| - i
  {
    if i == |acts| then shas
    else NewShas(acts, i + 1, if ShaAt(shas, acts[i].path) != acts[i].newSha
                              then shas[acts[i].path := acts[i].newSha] else shas)
  }

  /** bases.json, then conflicts.json, each only when changed and only while nothing failed. */
  function SaveIndexes(lands: Faults, x: Applied): Applied {
    if !x.ok then x
    else
      var y := if x.bases then x.(store := SaveBases(lands, x.store), ok := lands(x.store.disk.writes)) else x;
      if !y.ok || !y.conflicts then y
      else y.(store := SaveConflicts(lands, y.store), ok := lands(y.store.disk.writes))
  }

  /** Everything but state.json. */
  function ApplyStores(lands: Faults, s: Store, kept: seq<Action>): Applied {
    SaveIndexes(lands, ApplySidecars(lands, kept, 0, ApplyBases(lands, kept, 0, Applied(s, true, false, false))))
  }

  /** `repairApply`; it re-reads state.json, which an old binary may have written since the plan was made. */
  function ApplyPlan(lands: Faults, s: Store, acts: seq<Action>): Store {
    var now := s.disk.state;
    var kept := KeptFrom(now.shas, acts, 0, []);
    var y := ApplyStores(lands, s, kept);
    var shas := NewShas(kept, 0, now.shas);
    if !y.ok then y.store
    else
      var t := y.store.(state := now.(shas := shas));
      if shas == now.shas then t else SaveState(lands, t)
  }

  /** Whether every write of it succeeds. */
  predicate ApplyOk(lands: Faults, s: Store, acts: seq<Action>) {
    var kept := KeptFrom(s.disk.state.shas, acts, 0, []);
    var y := ApplyStores(lands, s, kept);
    y.ok && (NewShas(kept, 0, s.disk.state.shas) == s.disk.state.shas || lands(y.store.disk.writes))
  }

  method RunApply(hub: OpenHub, acts: seq<Action>) returns (kept: seq<Action>, ok: bool)
    modifies hub
    ensures kept == KeptFrom(old(hub.disk.state.shas), acts, 0, [])
    ensures hub.Value() == ApplyPlan(hub.lands, old(hub.Value()), acts)
    ensures ok == ApplyOk(hub.lands, old(hub.Value()), acts)
  {
    var now := hub.disk.state;
    kept := [];
    var i := 0;
    while i < |acts|
      invariant i <= |acts| && KeptFrom(now.shas, acts, i, kept) == KeptFrom(now.shas, acts, 0, [])
      invariant hub.Value() == old(hub.Value())
    {
      if ShaAt(now.shas, acts[i].path) == acts[i].oldSha {
        kept := kept + [acts[i]];
      }
      i := i + 1;
    }
    var bases, conflicts;
    ok, bases, conflicts := RunPuts(hub, kept);
    if ok && bases {
      ok := hub.SaveBaseIndex();
    }
    if ok && conflicts {
      ok := hub.SaveConflictIndex();
    }
    if !ok {
      return;
    }
    var shas := now.shas;
    i := 0;
    while i < |kept|
      invariant i <= |kept| && NewShas(kept, i, shas) == NewShas(kept, 0, now.shas)
    {
      if ShaAt(shas, kept[i].path) != kept[i].newSha {
        shas := shas[kept[i].path := kept[i].newSha];
      }
      i := i + 1;
    }
    hub.state := now.(shas := shas);
    if shas != now.shas {
      ok := hub.SaveSyncState();
    }
  }

  /** The base files, then the sidecars; the first failure ends it. */
  method RunPuts(hub: OpenHub, kept: seq<Action>) returns (ok: bool, bases: bool, conflicts: bool)
    modifies hub
    ensures Applied(hub.Value(), ok, bases, conflicts)
         == ApplySidecars(hub.lands, kept, 0,
                          ApplyBases(hub.lands, kept, 0, Applied(old(hub.Value()), true, false, false)))
  {
    ok, bases, conflicts := true, false, false;
    var i := 0;
    while i < |kept|
      invariant i <= |kept|
      invariant ApplyBases(hub.lands, kept, i, Applied(hub.Value(), ok, bases, conflicts))
             == ApplyBases(hub.lands, kept, 0, Applied(old(hub.Value()), true, false, false))
    {
      if ok && kept[i].base.Some? {
        ok := hub.PutBasePage(kept[i].path, kept[i].base.value, kept[i].newSha);
        bases := bases || ok;
      }
      i := i + 1;
    }
    ghost var x := Applied(hub.Value(), ok, bases, conflicts);
    i := 0;
    while i < |kept|
      invariant i <= |kept|
      invariant ApplySidecars(hub.lands, kept, i, Applied(hub.Value(), ok, bases, conflicts))
             == ApplySidecars(hub.lands, kept, 0, x)
    {
      if ok {
        if kept[i].sidecar.Some? {
          ok := hub.PutSidecar(kept[i].path, kept[i].sidecar.value.0, kept[i].sidecar.value.1);
          conflicts := conflicts || ok;
        } else if kept[i].clearSidecar {
          ok := hub.ClearSidecar(kept[i].path);
          conflicts := conflicts || ok;
        }
      }
      i := i + 1;
    }
  }
}

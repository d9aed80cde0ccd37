/** `ctx resolve` (internal/syncops/resolve.go) on one page. */
module Resolve {
  import opened Basics
  import opened Pages
  import opened Contract
  import opened Hub

  datatype Strategy = Ours | Theirs

  datatype Error = ServerError | Stale | NotResolvable(state: PageState) | WriteFailed

  /** The hub afterwards, and why the resolve gave up, if it did. */
  datatype Result = Result(store: Store, error: Option<Error>)

  /** The server version as resolve keeps it. */
  datatype Target = Target(path: Path, sha: Sha, content: Bytes, hadSidecar: bool)

  function FactsAt(s: Store, p: Path, sha: Sha): Facts {
    Gather(s, p, Some(map[p := sha]))
  }

  // ---- resolveRecord: base file, sidecar, bases.json, conflicts.json, state.json; it stops at the first failure ----

  function RecordState(lands: Faults, s: Store, t: Target): Result {
    var s := s.(state := s.state.(shas := s.state.shas[t.path := t.sha]));
    Result(SaveState(lands, s), if lands(s.disk.writes) then None else Some(WriteFailed))
  }

  function RecordConflicts(lands: Faults, s: Store, t: Target): Result {
    if !t.hadSidecar then RecordState(lands, s, t)
    else if !lands(s.disk.writes) then Result(SaveConflicts(lands, s), Some(WriteFailed))
    else RecordState(lands, SaveConflicts(lands, s), t)
  }

  function RecordBases(lands: Faults, s: Store, t: Target): Result {
    if !lands(s.disk.writes) then Result(SaveBases(lands, s), Some(WriteFailed))
    else RecordConflicts(lands, SaveBases(lands, s), t)
  }

  function RecordSidecar(lands: Faults, s: Store, t: Target): Result {
    if !lands(s.disk.writes) then Result(ClearConflict(lands, s, t.path), Some(WriteFailed))
    else RecordBases(lands, ClearConflict(lands, s, t.path), t)
  }

  function Record(lands: Faults, s: Store, t: Target): Result {
    var put := PutBase(lands, s, t.path, t.content, t.sha);
    if !PutBaseOk(lands, s, t.sha) then Result(put, Some(WriteFailed)) else RecordSidecar(lands, put, t)
  }

  // ---- The two strategies ----

  predicate Rebasable(f: Facts) {
    FactsState(f).Conflict? || (FactsState(f).Unverified? && f.local.LocalValid?)
  }

  function KeepOurs(lands: Faults, s: Store, t: Target): Result {
    var f := FactsAt(s, t.path, t.sha);
    if !Rebasable(f) then Result(s, Some(NotResolvable(FactsState(f)))) else Record(lands, s, t)
  }

  function DropSidecar(lands: Faults, s: Store, t: Target): Result {
    if !t.hadSidecar then Result(s, None)
    else if !lands(s.disk.writes) then Result(ClearConflict(lands, s, t.path), Some(WriteFailed))
    else
      var s := ClearConflict(lands, s, t.path);
      Result(SaveConflicts(lands, s), if lands(s.disk.writes) then None else Some(WriteFailed))
  }

  /** Write the server version over the working file. */
  function Replace(lands: Faults, s: Store, t: Target): Result {
    Result(WriteFile(lands, s, t.path, t.content), if lands(s.disk.writes) then None else Some(WriteFailed))
  }

  /** The backup and the working file: the bytes about to be replaced are backed up first. */
  function WriteTheirs(lands: Faults, s: Store, t: Target, now: nat): Result {
    var files := s.disk.files;
    if t.path !in files then Replace(lands, s, t)
    else if files[t.path] == t.content then Result(s, None)
    else
      var b := WriteBackup(lands, s, t.path, now, files[t.path]);
      if !lands(s.disk.writes) then Result(b, Some(WriteFailed)) else Replace(lands, b, t)
  }

  function TakeTheirs(lands: Faults, s: Store, t: Target, now: nat): Result {
    var w := WriteTheirs(lands, s, t, now);
    if FactsState(FactsAt(s, t.path, t.sha)).Unchanged? then DropSidecar(lands, s, t)
    else if w.error.Some? then w
    else Record(lands, w.store, t)
  }

  /** `Resolve` on the answer of its one ReadPage; `expected` is --if-server-sha. */
  function Resolved(lands: Faults, s: Store, p: Path, how: Strategy, expected: Option<Sha>, raw: Bytes, sha: Sha,
                    now: nat): Result {
    var t := Target(p, sha, Sanitize(raw), p in s.conflicts);
    if sha == NoSha then Result(s, Some(ServerError))
    else if expected.Some? && expected.value != sha then Result(s, Some(Stale))
    else if how == Ours then KeepOurs(lands, s, t)
    else TakeTheirs(lands, s, t, now)
  }

  // ---- The engine ----

  method RecordTarget(hub: OpenHub, t: Target) returns (error: Option<Error>)
    modifies hub
    ensures Result(hub.Value(), error) == Record(hub.lands, old(hub.Value()), t)
  {
    var ok := hub.PutBasePage(t.path, t.content, t.sha);
    if !ok {
      return Some(WriteFailed);
    }
    ok := hub.ClearSidecar(t.path);
    if !ok {
      return Some(WriteFailed);
    }
    ok := hub.SaveBaseIndex();
    if !ok {
      return Some(WriteFailed);
    }
    if t.hadSidecar {
      ok := hub.SaveConflictIndex();
      if !ok {
        return Some(WriteFailed);
      }
    }
    hub.state := hub.state.(shas := hub.state.shas[t.path := t.sha]);
    ok := hub.SaveSyncState();
    error := if ok then None else Some(WriteFailed);
  }

  method ResolveOurs(hub: OpenHub, t: Target) returns (error: Option<Error>)
    modifies hub
    ensures Result(hub.Value(), error) == KeepOurs(hub.lands, old(hub.Value()), t)
  {
    var f := FactsAt(Store(hub.disk, hub.bases, hub.conflicts, hub.state), t.path, t.sha);
    if !Rebasable(f) {
      return Some(NotResolvable(FactsState(f)));
    }
    error := RecordTarget(hub, t);
  }

  method ResolveTheirs(hub: OpenHub, t: Target, now: nat) returns (error: Option<Error>)
    modifies hub
    ensures Result(hub.Value(), error) == TakeTheirs(hub.lands, old(hub.Value()), t, now)
  {
    var f := FactsAt(Store(hub.disk, hub.bases, hub.conflicts, hub.state), t.path, t.sha);
    var ok;
    if FactsState(f).Unchanged? {
      if !t.hadSidecar {
        return None;
      }
      ok := hub.ClearSidecar(t.path);
      if !ok {
        return Some(WriteFailed);
      }
      ok := hub.SaveConflictIndex();
      return if ok then None else Some(WriteFailed);
    }
    var exists_ := t.path in hub.disk.files;
    if !exists_ || hub.disk.files[t.path] != t.content {
      if exists_ {
        ok := hub.PutBackup(t.path, now, hub.disk.files[t.path]);
        if !ok {
          return Some(WriteFailed);
        }
      }
      ok := hub.PutFile(t.path, t.content);
      if !ok {
        return Some(WriteFailed);
      }
    }
    error := RecordTarget(hub, t);
  }

  method RunResolve(hub: OpenHub, p: Path, how: Strategy, expected: Option<Sha>, raw: Bytes, sha: Sha, now: nat)
    returns (error: Option<Error>)
    modifies hub
    ensures Result(hub.Value(), error) == Resolved(hub.lands, old(hub.Value()), p, how, expected, raw, sha, now)
  {
    if sha == NoSha {
      return Some(ServerError);
    }
    if expected.Some? && expected.value != sha {
      return Some(Stale);
    }
    var t := Target(p, sha, Sanitize(raw), p in hub.conflicts);
    if how == Ours {
      error := ResolveOurs(hub, t);
    } else {
      error := ResolveTheirs(hub, t, now);
    }
  }

  // ---- What a resolve keeps, whichever of its writes fail ----

  lemma RecordKeeps(v: Server, lands: Faults, s: Store, t: Target)
    requires TrueStore(v, s) && IssuedFor(v, t.sha, t.path) && t.content == Sanitize(v.versions[t.sha].content)
    ensures TrueStore(v, Record(lands, s, t).store)
  {
    PutBaseKeeps(lands, v, s, t.path, t.content, t.sha);
    var s1 := PutBase(lands, s, t.path, t.content, t.sha);
    ClearConflictKeeps(lands, v, s1, t.path);
    var s2 := ClearConflict(lands, s1, t.path);
    SavesKeep(lands, v, s2);
    var s3 := SaveBases(lands, s2);
    SavesKeep(lands, v, s3);
    var s4 := if t.hadSidecar then SaveConflicts(lands, s3) else s3;
    var s5 := s4.(state := s4.state.(shas := s4.state.shas[t.path := t.sha]));
    assert TrueStore(v, s5);
    SavesKeep(lands, v, s5);
    hide PutBase, ClearConflict, SaveBases, SaveConflicts, SaveState, TrueStore;
  }

  lemma RecordFailsOnlyByWriting(lands: Faults, s: Store, t: Target)
    ensures Record(lands, s, t).error in {None, Some(WriteFailed)}
  {
  }

  lemma FilesAreFree(v: Server, lands: Faults, s: Store, p: Path, now: nat, c: Bytes)
    requires TrueStore(v, s)
    ensures TrueStore(v, WriteFile(lands, s, p, c)) && TrueStore(v, WriteBackup(lands, s, p, now, c))
  {
    hide TrueBases, IssuedShas, TrueSidecars;
  }

  lemma DropKeeps(v: Server, lands: Faults, s: Store, t: Target)
    requires TrueStore(v, s)
    ensures TrueStore(v, DropSidecar(lands, s, t).store)
  {
    ClearConflictKeeps(lands, v, s, t.path);
    SavesKeep(lands, v, ClearConflict(lands, s, t.path));
    hide ClearConflict, SaveConflicts, TrueStore;
  }

  lemma WriteTheirsKeeps(v: Server, lands: Faults, s: Store, t: Target, now: nat)
    requires TrueStore(v, s)
    ensures TrueStore(v, WriteTheirs(lands, s, t, now).store)
  {
    FilesAreFree(v, lands, s, t.path, now, t.content);
    if t.path in s.disk.files {
      FilesAreFree(v, lands, s, t.path, now, s.disk.files[t.path]);
      FilesAreFree(v, lands, WriteBackup(lands, s, t.path, now, s.disk.files[t.path]), t.path, now, t.content);
    }
    hide WriteFile, WriteBackup, TrueStore;
  }

  /** Whatever subset of a resolve's writes reaches the disk, every base is true. */
  lemma ResolveKeepsBasesTrue(v: Server, lands: Faults, s: Store, p: Path, how: Strategy, expected: Option<Sha>,
                              raw: Bytes, sha: Sha, now: nat)
    requires TrueStore(v, s) && (sha != NoSha ==> Faithful(v, p, sha, raw))
    ensures TrueStore(v, Resolved(lands, s, p, how, expected, raw, sha, now).store)
  {
    if sha != NoSha {
      var t := Target(p, sha, Sanitize(raw), p in s.conflicts);
      RecordKeeps(v, lands, s, t);
      DropKeeps(v, lands, s, t);
      WriteTheirsKeeps(v, lands, s, t, now);
      RecordKeeps(v, lands, WriteTheirs(lands, s, t, now).store, t);
      hide TrueStore, Record, DropSidecar, WriteTheirs, FactsAt;
    }
  }

  // ---- Nothing the user wrote is lost ----

  lemma RecordLeavesFiles(lands: Faults, s: Store, t: Target)
    ensures SameTree(s, Record(lands, s, t).store)
  {
    hide PutBase, ClearConflict, SaveBases, SaveConflicts, SaveState;
    var any := ConflictRecord(NoSha, NoSha, BothAdded, false);
    StoreWritesLeaveTree(lands, s, t.path, t.content, t.sha, any);
    var s1 := PutBase(lands, s, t.path, t.content, t.sha);
    StoreWritesLeaveTree(lands, s1, t.path, t.content, t.sha, any);
    var s2 := ClearConflict(lands, s1, t.path);
    SavesLeaveTree(lands, s2);
    var s3 := SaveBases(lands, s2);
    SavesLeaveTree(lands, s3);
    var s4 := if t.hadSidecar then SaveConflicts(lands, s3) else s3;
    SavesLeaveTree(lands, s4.(state := s4.state.(shas := s4.state.shas[t.path := t.sha])));
  }

  lemma DropLeavesFiles(lands: Faults, s: Store, t: Target)
    ensures SameTree(s, DropSidecar(lands, s, t).store)
  {
    hide ClearConflict, SaveConflicts;
    StoreWritesLeaveTree(lands, s, t.path, t.content, t.sha, ConflictRecord(NoSha, NoSha, BothAdded, false));
    SavesLeaveTree(lands, ClearConflict(lands, s, t.path));
  }

  /** The files and backups of a resolve are those of its first two writes, or as they were. */
  lemma TreeOfResolve(lands: Faults, s: Store, p: Path, how: Strategy, expected: Option<Sha>, raw: Bytes, sha: Sha,
                      now: nat)
    ensures var t := Target(p, sha, Sanitize(raw), p in s.conflicts);
      var r := Resolved(lands, s, p, how, expected, raw, sha, now).store;
      SameTree(s, r) || (how == Theirs && SameTree(WriteTheirs(lands, s, t, now).store, r))
  {
    var t := Target(p, sha, Sanitize(raw), p in s.conflicts);
    RecordLeavesFiles(lands, s, t);
    DropLeavesFiles(lands, s, t);
    RecordLeavesFiles(lands, WriteTheirs(lands, s, t, now).store, t);
    hide Record, DropSidecar, FactsAt, WriteTheirs;
  }

  /** `--ours` touches no working file; `--theirs` replaces bytes only after exactly those bytes are in the backup,
      and touches no other file and no other backup. */
  lemma ResolveLosesNothing(lands: Faults, s: Store, p: Path, how: Strategy, expected: Option<Sha>, raw: Bytes,
                            sha: Sha, now: nat)
    ensures var d := s.disk; var e := Resolved(lands, s, p, how, expected, raw, sha, now).store.disk;
      && (how == Ours ==> e.files == d.files && e.backups == d.backups)
      && (e.files == d.files || e.files == d.files[p := Sanitize(raw)])
      && (e.files != d.files && p in d.files ==> (p, now) in e.backups && e.backups[(p, now)] == d.files[p])
      && (e.backups == d.backups || (p in d.files && e.backups == d.backups[(p, now) := d.files[p]]))
  {
    TreeOfResolve(lands, s, p, how, expected, raw, sha, now);
    hide Resolved;
  }

  /** This `--theirs` replaces the working file's bytes. */
  predicate Replaces(s: Store, p: Path, expected: Option<Sha>, raw: Bytes, sha: Sha) {
    && sha != NoSha && (expected.Some? ==> expected.value == sha)
    && !FactsState(FactsAt(s, p, sha)).Unchanged?
    && p in s.disk.files && s.disk.files[p] != Sanitize(raw)
  }

  lemma BackupsAfter(lands: Faults, s: Store, p: Path, expected: Option<Sha>, raw: Bytes, sha: Sha, now: nat)
    requires NoFaults(lands)
    ensures Resolved(lands, s, p, Theirs, expected, raw, sha, now).store.disk.backups
         == if Replaces(s, p, expected, raw, sha) then s.disk.backups[(p, now) := s.disk.files[p]] else s.disk.backups
  {
    hide Record, DropSidecar, FactsAt, WriteTheirs, FactsState;
    var t := Target(p, sha, Sanitize(raw), p in s.conflicts);
    var w := WriteTheirs(lands, s, t, now).store;
    RecordLeavesFiles(lands, w, t);
    DropLeavesFiles(lands, s, t);
    BackupTaken(lands, s, t, now);
  }

  lemma BackupTaken(lands: Faults, s: Store, t: Target, now: nat)
    requires NoFaults(lands)
    ensures var r := WriteTheirs(lands, s, t, now);
      && r.error.None?
      && r.store.disk.backups == if t.path in s.disk.files && s.disk.files[t.path] != t.content
                                 then s.disk.backups[(t.path, now) := s.disk.files[t.path]] else s.disk.backups
  {
  }

  /** Two resolves of one page in the same second share a backup name, and the second backup takes the first one's
      place: no backup is lost exactly when nothing is replaced, the name is free, or it holds these very bytes. */
  lemma BackupSurvivesIff(lands: Faults, s: Store, p: Path, expected: Option<Sha>, raw: Bytes, sha: Sha, now: nat)
    requires NoFaults(lands)
    ensures var e := Resolved(lands, s, p, Theirs, expected, raw, sha, now).store.disk;
      (forall k | k in s.disk.backups :: k in e.backups && e.backups[k] == s.disk.backups[k])
      <==> (!Replaces(s, p, expected, raw, sha) || (p, now) !in s.disk.backups
            || s.disk.backups[(p, now)] == s.disk.files[p])
  {
    BackupsAfter(lands, s, p, expected, raw, sha, now);
    hide Resolved, FactsAt;
  }

  // ---- What a resolve achieves ----

  lemma RecordSettles(lands: Faults, s: Store, t: Target)
    requires NoFaults(lands) && t.sha != NoSha
    ensures var r := Record(lands, s, t);
      && r.error.None? && r.store.disk.files == s.disk.files
      && BaseOf(r.store, t.path) == BaseValid(t.sha, HashOf(t.content)) && t.path !in r.store.conflicts
      && r.store.disk.state == r.store.state && r.store.disk.bases == r.store.bases
  {
    hide HashOf;
  }

  /** `--ours` re-bases the local page onto the server version: what the user has is then a plain modification of
      it. */
  lemma OursRebases(lands: Faults, s: Store, p: Path, expected: Option<Sha>, raw: Bytes, sha: Sha, now: nat)
    requires NoFaults(lands) && Resolved(lands, s, p, Ours, expected, raw, sha, now).error.None?
    ensures var r := Resolved(lands, s, p, Ours, expected, raw, sha, now).store;
      && (expected.Some? ==> expected.value == sha)
      && BaseOf(r, p) == BaseValid(sha, HashOf(Sanitize(raw)))
      && r.disk.files == s.disk.files
      && FactsState(FactsAt(r, p, sha)) in {Modified, Unchanged}
  {
    RecordSettles(lands, s, Target(p, sha, Sanitize(raw), p in s.conflicts));
    hide Record, HashOf, BaseOf;
  }

  /** `--theirs` leaves the page unchanged, when the server version is a page. */
  lemma TheirsSettles(lands: Faults, s: Store, p: Path, expected: Option<Sha>, raw: Bytes, sha: Sha, now: nat)
    requires NoFaults(lands) && IsPageAt(p, Sanitize(raw))
    requires Resolved(lands, s, p, Theirs, expected, raw, sha, now).error.None?
    ensures var r := Resolved(lands, s, p, Theirs, expected, raw, sha, now).store;
      FactsState(FactsAt(r, p, sha)).Unchanged?
  {
    var t := Target(p, sha, Sanitize(raw), p in s.conflicts);
    var w := WriteTheirs(lands, s, t, now).store;
    RecordSettles(lands, w, t);
    if FactsState(FactsAt(s, p, sha)).Unchanged? {
      DropSettles(lands, s, t);
    } else {
      assert w.disk.files[p] == t.content;
    }
    hide Record, HashOf, DropSidecar, WriteTheirs, BaseOf;
  }

  lemma DropSettles(lands: Faults, s: Store, t: Target)
    requires NoFaults(lands) && t.hadSidecar == (t.path in s.conflicts)
    requires FactsState(FactsAt(s, t.path, t.sha)).Unchanged?
    ensures FactsState(FactsAt(DropSidecar(lands, s, t).store, t.path, t.sha)).Unchanged?
  {
    hide HashOf;
  }

  // ---- Exactly when a resolve succeeds, and what it leaves ----

  /** `--ours` may re-base the page onto the server's commit `sha`: its file is a page, and it has no base, or none that
      is still stored, or was edited since a base at another commit, or since a base at this one while a conflict is
      recorded. */
  ghost predicate OursApplies(s: Store, p: Path, sha: Sha) {
    var at := ShaAt(s.state.shas, p);
    && IsPage(s, p)
    && (|| at == NoSha
        || !HasBase(s, p)
        || (EditedSinceBase(s, p) && (at != sha || ConflictNamed(s, p))))
  }

  ghost predicate UnchangedAt(s: Store, p: Path, sha: Sha) {
    IsPage(s, p) && HasBase(s, p) && !EditedSinceBase(s, p) && ShaAt(s.state.shas, p) == sha
  }

  lemma RebasableIff(s: Store, p: Path, sha: Sha)
    ensures Rebasable(FactsAt(s, p, sha)) <==> OursApplies(s, p, sha)
    ensures FactsState(FactsAt(s, p, sha)).Unchanged? <==> UnchangedAt(s, p, sha)
  {
    hide HashOf;
  }

  /** The guard on the sha is met. */
  predicate GuardMet(expected: Option<Sha>, sha: Sha) {
    sha != NoSha && (expected.Some? ==> expected.value == sha)
  }

  /** A resolve that is refused - the server named no commit, the guard is not met, the page is not one that `--ours`
      re-bases - says so and has written nothing; it is never refused for another reason, and otherwise fails only
      because a write did. */
  lemma RefusalTouchesNothing(lands: Faults, s: Store, p: Path, how: Strategy, expected: Option<Sha>, raw: Bytes,
                              sha: Sha, now: nat)
    ensures var r := Resolved(lands, s, p, how, expected, raw, sha, now);
      var refused := !GuardMet(expected, sha) || (how == Ours && !OursApplies(s, p, sha));
      && (refused ==>
            r == Result(s, Some(if sha == NoSha then ServerError
                                else if !GuardMet(expected, sha) then Stale
                                else NotResolvable(FactsState(FactsAt(s, p, sha))))))
      && (!refused ==> r.error in {None, Some(WriteFailed)})
  {
    RebasableIff(s, p, sha);
    var t := Target(p, sha, Sanitize(raw), p in s.conflicts);
    RecordFailsOnlyByWriting(lands, s, t);
    var w := WriteTheirs(lands, s, t, now);
    RecordFailsOnlyByWriting(lands, w.store, t);
    assert w.error in {None, Some(WriteFailed)};
    hide Record, WriteTheirs, OursApplies, Rebasable, FactsAt, FactsState;
  }

  /** From `s` a resolve has come to `r`: it succeeds exactly when every write it tried reached the disk, and otherwise
      its last write is the one that failed. */
  ghost predicate StopsAtFailure(lands: Faults, s: Store, r: Result) {
    var n, m := s.disk.writes, r.store.disk.writes;
    && n <= m
    && (r.error.None? ==> AllLanded(lands, n, m))
    && (r.error == Some(WriteFailed) ==> n < m && AllLanded(lands, n, m - 1) && !lands(m - 1))
  }

  /** One write, and what follows it. */
  lemma OneWriteMore(lands: Faults, s: Store, w: Store, r: Result)
    requires w.disk.writes == s.disk.writes + 1 && lands(s.disk.writes) && StopsAtFailure(lands, w, r)
    ensures StopsAtFailure(lands, s, r)
  {
  }

  lemma RecordConflictsStops(lands: Faults, s: Store, t: Target)
    ensures var r := RecordConflicts(lands, s, t);
      StopsAtFailure(lands, s, r) && (r.error.None? ==> r == RecordConflicts(NeverFail(), s, t))
  {
  }

  lemma RecordBasesStops(lands: Faults, s: Store, t: Target)
    ensures var r := RecordBases(lands, s, t);
      StopsAtFailure(lands, s, r) && (r.error.None? ==> r == RecordBases(NeverFail(), s, t))
  {
    var w := SaveBases(lands, s);
    if lands(s.disk.writes) {
      RecordConflictsStops(lands, w, t);
      OneWriteMore(lands, s, w, RecordConflicts(lands, w, t));
    }
    hide RecordConflicts;
  }

  lemma RecordSidecarStops(lands: Faults, s: Store, t: Target)
    ensures var r := RecordSidecar(lands, s, t);
      StopsAtFailure(lands, s, r) && (r.error.None? ==> r == RecordSidecar(NeverFail(), s, t))
  {
    var w := ClearConflict(lands, s, t.path);
    if lands(s.disk.writes) {
      RecordBasesStops(lands, w, t);
      OneWriteMore(lands, s, w, RecordBases(lands, w, t));
    }
    hide RecordBases;
  }

  lemma RecordStops(lands: Faults, s: Store, t: Target)
    requires t.sha != NoSha
    ensures StopsAtFailure(lands, s, Record(lands, s, t))
    ensures Record(lands, s, t).error.None? ==> Record(lands, s, t) == Record(NeverFail(), s, t)
  {
    var w := PutBase(lands, s, t.path, t.content, t.sha);
    if lands(s.disk.writes) {
      RecordSidecarStops(lands, w, t);
      OneWriteMore(lands, s, w, RecordSidecar(lands, w, t));
    }
    hide RecordSidecar, HashOf;
  }

  lemma TheirsStops(lands: Faults, s: Store, t: Target, now: nat)
    ensures StopsAtFailure(lands, s, WriteTheirs(lands, s, t, now))
    ensures WriteTheirs(lands, s, t, now).error in {None, Some(WriteFailed)}
    ensures var w := WriteTheirs(lands, s, t, now); w.error.None? ==> w == WriteTheirs(NeverFail(), s, t, now)
  {
  }

  lemma DropStops(lands: Faults, s: Store, t: Target)
    ensures StopsAtFailure(lands, s, DropSidecar(lands, s, t))
    ensures DropSidecar(lands, s, t).error in {None, Some(WriteFailed)}
    ensures var r := DropSidecar(lands, s, t); r.error.None? ==> r == DropSidecar(NeverFail(), s, t)
  {
  }

  lemma StopsTwice(lands: Faults, s: Store, w: Store, r: Result)
    requires StopsAtFailure(lands, s, Result(w, None)) && StopsAtFailure(lands, w, r)
    ensures StopsAtFailure(lands, s, r)
  {
  }

  /** Whichever writes fail: a resolve that was not refused reports success exactly when every write it tried reached
      the disk, stops at the first that did not, and success means what it means when nothing fails. */
  lemma SuccessIsComplete(lands: Faults, s: Store, p: Path, how: Strategy, expected: Option<Sha>, raw: Bytes, sha: Sha,
                          now: nat)
    ensures var r := Resolved(lands, s, p, how, expected, raw, sha, now);
      StopsAtFailure(lands, s, r)
      && (r.error.None? ==> r == Resolved(NeverFail(), s, p, how, expected, raw, sha, now))
  {
    hide Record, WriteTheirs, DropSidecar, Rebasable, FactsAt, FactsState, StopsAtFailure;
    assert StopsAtFailure(lands, s, Result(s, Some(ServerError))) && StopsAtFailure(lands, s, Result(s, Some(Stale)))
        && forall st :: StopsAtFailure(lands, s, Result(s, Some(NotResolvable(st)))) by { NothingTried(lands, s); }
    if sha != NoSha {
      var t := Target(p, sha, Sanitize(raw), p in s.conflicts);
      RecordStops(lands, s, t);
      DropStops(lands, s, t);
      TheirsStops(lands, s, t, now);
      var w := WriteTheirs(lands, s, t, now);
      RecordStops(lands, w.store, t);
      if w.error.None? {
        StopsTwice(lands, s, w.store, Record(lands, w.store, t));
      }
    }
  }

  lemma NothingTried(lands: Faults, s: Store)
    ensures StopsAtFailure(lands, s, Result(s, Some(ServerError))) && StopsAtFailure(lands, s, Result(s, Some(Stale)))
    ensures forall st :: StopsAtFailure(lands, s, Result(s, Some(NotResolvable(st))))
  {
  }

  /** What a recorded resolve leaves of its page. */
  function Settled(t: Slot, c: Bytes, sha: Sha): Slot {
    t.(base := Some(BaseRecord(sha, HashOf(c))), baseFile := Some(c), sidecar := None, text := None, sha := sha)
  }

  lemma RecordSlot(lands: Faults, s: Store, t: Target)
    requires NoFaults(lands) && t.sha != NoSha
    ensures SlotOf(Record(lands, s, t).store, t.path) == Settled(SlotOf(s, t.path), t.content, t.sha)
  {
    hide HashOf;
  }

  lemma TheirsSlot(lands: Faults, s: Store, t: Target, now: nat)
    requires NoFaults(lands)
    ensures var w := WriteTheirs(lands, s, t, now);
      w.error.None? && SlotOf(w.store, t.path) == SlotOf(s, t.path).(file := Some(t.content))
  {
    hide HashOf;
  }

  /** `--ours` succeeds exactly when the guard is met and it applies, `--theirs` whenever the guard is met - unless a
      write fails. And then the page has the server version as its base, under the guarded sha, no sidecar any more, and
      the file it had or the server's. `--theirs` on an unchanged page only drops its sidecar. */
  lemma ResolveOutcome(lands: Faults, s: Store, p: Path, how: Strategy, expected: Option<Sha>, raw: Bytes, sha: Sha,
                       now: nat)
    ensures var r := Resolved(lands, s, p, how, expected, raw, sha, now);
      var t, u, c := SlotOf(s, p), SlotOf(r.store, p), Sanitize(raw);
      && (NoFaults(lands) || r.error.None? ==>
            (r.error.None? <==> GuardMet(expected, sha) && (how == Ours ==> OursApplies(s, p, sha))))
      && (r.error.None? && how == Ours ==> u == Settled(t, c, sha))
      && (r.error.None? && how == Theirs && !UnchangedAt(s, p, sha) ==> u == Settled(t.(file := Some(c)), c, sha))
      && (r.error.None? && how == Theirs && UnchangedAt(s, p, sha) ==>
            u == t.(sidecar := None, text := if t.sidecar.Some? then None else t.text))
  {
    hide Resolved, SlotOf, Settled, OursApplies, UnchangedAt, HashOf;
    SuccessIsComplete(lands, s, p, how, expected, raw, sha, now);
    OutcomeWithoutFaults(NeverFail(), s, p, how, expected, raw, sha, now);
    if NoFaults(lands) {
      OutcomeWithoutFaults(lands, s, p, how, expected, raw, sha, now);
    }
  }

  lemma OutcomeWithoutFaults(lands: Faults, s: Store, p: Path, how: Strategy, expected: Option<Sha>, raw: Bytes,
                             sha: Sha, now: nat)
    requires NoFaults(lands)
    ensures var r := Resolved(lands, s, p, how, expected, raw, sha, now);
      var t, u, c := SlotOf(s, p), SlotOf(r.store, p), Sanitize(raw);
      && (r.error.None? <==> GuardMet(expected, sha) && (how == Ours ==> OursApplies(s, p, sha)))
      && (r.error.None? && how == Ours ==> u == Settled(t, c, sha))
      && (r.error.None? && how == Theirs && !UnchangedAt(s, p, sha) ==> u == Settled(t.(file := Some(c)), c, sha))
      && (r.error.None? && how == Theirs && UnchangedAt(s, p, sha) ==>
            u == t.(sidecar := None, text := if t.sidecar.Some? then None else t.text))
  {
    hide Record, WriteTheirs, DropSidecar, OursApplies, UnchangedAt, Rebasable, FactsAt, FactsState, SlotOf, Settled,
         BaseOf, HashOf;
    RebasableIff(s, p, sha);
    var t := Target(p, sha, Sanitize(raw), p in s.conflicts);
    if !GuardMet(expected, sha) {
      return;
    }
    if how == Ours {
      RecordSettles(lands, s, t);
      RecordSlot(lands, s, t);
    } else if UnchangedAt(s, p, sha) {
      DropSlot(lands, s, t);
    } else {
      TheirsSlot(lands, s, t, now);
      var w := WriteTheirs(lands, s, t, now).store;
      RecordSettles(lands, w, t);
      RecordSlot(lands, w, t);
      assert Settled(SlotOf(s, p).(file := Some(t.content)), t.content, sha) == SlotOf(Record(lands, w, t).store, p);
    }
  }

  lemma DropSlot(lands: Faults, s: Store, t: Target)
    requires NoFaults(lands) && t.hadSidecar == (t.path in s.conflicts)
    ensures var r := DropSidecar(lands, s, t); var a := SlotOf(s, t.path);
      && r.error.None?
      && SlotOf(r.store, t.path) == a.(sidecar := None, text := if a.sidecar.Some? then None else a.text)
  {
  }

  /** After a success what is on disk is what is in memory. */
  lemma ResolveIsSaved(lands: Faults, s: Store, p: Path, how: Strategy, expected: Option<Sha>, raw: Bytes, sha: Sha,
                       now: nat)
    requires Open(s.disk) == s && Resolved(lands, s, p, how, expected, raw, sha, now).error.None?
    ensures var r := Resolved(lands, s, p, how, expected, raw, sha, now).store; Open(r.disk) == r
  {
    SuccessIsComplete(lands, s, p, how, expected, raw, sha, now);
    hide Record, WriteTheirs, DropSidecar, Rebasable, FactsAt, FactsState, Open;
    var t := Target(p, sha, Sanitize(raw), p in s.conflicts);
    RecordSaves(NeverFail(), s, t);
    FilesSave(NeverFail(), s, t, now);
    RecordSaves(NeverFail(), WriteTheirs(NeverFail(), s, t, now).store, t);
  }

  lemma FilesSave(lands: Faults, s: Store, t: Target, now: nat)
    requires NoFaults(lands) && Open(s.disk) == s && t.hadSidecar == (t.path in s.conflicts)
    ensures var w := WriteTheirs(lands, s, t, now).store; w.conflicts == s.conflicts && Open(w.disk) == w
    ensures var r := DropSidecar(lands, s, t).store; Open(r.disk) == r
  {
  }

  lemma RecordSaves(lands: Faults, s: Store, t: Target)
    requires NoFaults(lands) && Open(s.disk) == s && t.sha != NoSha && t.hadSidecar == (t.path in s.conflicts)
    ensures var r := Record(lands, s, t).store; Open(r.disk) == r
  {
    hide HashOf;
  }

  /** Whichever writes fail, no other page is touched. */
  lemma ResolveTouchesOnePage(lands: Faults, s: Store, p: Path, how: Strategy, expected: Option<Sha>, raw: Bytes,
                              sha: Sha, now: nat, q: Path)
    requires q != p
    ensures SlotOf(Resolved(lands, s, p, how, expected, raw, sha, now).store, q) == SlotOf(s, q)
  {
    var t := Target(p, sha, Sanitize(raw), p in s.conflicts);
    RecordTouchesOnePage(lands, s, t, q);
    TheirsTouchesOnePage(lands, s, t, now, q);
    RecordTouchesOnePage(lands, WriteTheirs(lands, s, t, now).store, t, q);
    hide Record, WriteTheirs, DropSidecar, Rebasable, FactsAt, FactsState, SlotOf;
  }

  lemma TheirsTouchesOnePage(lands: Faults, s: Store, t: Target, now: nat, q: Path)
    requires q != t.path
    ensures SlotOf(WriteTheirs(lands, s, t, now).store, q) == SlotOf(s, q)
    ensures SlotOf(DropSidecar(lands, s, t).store, q) == SlotOf(s, q)
  {
    WriteFileTouchesOnePage(lands, s, t.path, t.content, q);
    ClearConflictTouchesOnePage(lands, s, t.path, q);
    SavesKeepSlots(lands, ClearConflict(lands, s, t.path), q);
    if t.path in s.disk.files {
      var b := WriteBackup(lands, s, t.path, now, s.disk.files[t.path]);
      assert SlotOf(b, q) == SlotOf(s, q);
      WriteFileTouchesOnePage(lands, b, t.path, t.content, q);
    }
    hide SlotOf, WriteFile, WriteBackup, ClearConflict, SaveConflicts;
  }

  lemma RecordTouchesOnePage(lands: Faults, s: Store, t: Target, q: Path)
    requires q != t.path
    ensures SlotOf(Record(lands, s, t).store, q) == SlotOf(s, q)
  {
    PutBaseTouchesOnePage(lands, s, t.path, t.content, t.sha, q);
    var s1 := PutBase(lands, s, t.path, t.content, t.sha);
    ClearConflictTouchesOnePage(lands, s1, t.path, q);
    var s2 := ClearConflict(lands, s1, t.path);
    SavesKeepSlots(lands, s2, q);
    var s3 := SaveBases(lands, s2);
    SavesKeepSlots(lands, s3, q);
    var s4 := if t.hadSidecar then SaveConflicts(lands, s3) else s3;
    var s5 := s4.(state := s4.state.(shas := s4.state.shas[t.path := t.sha]));
    assert SlotOf(s5, q) == SlotOf(s4, q);
    SavesKeepSlots(lands, s5, q);
    hide SlotOf, PutBase, ClearConflict, SaveBases, SaveConflicts, SaveState;
  }
}

/** What a push sends is guarded, and what it records is true. */
module PushSafety {
  import opened Basics
  import opened Pages
  import opened Contract
  import opened Hub
  import opened Push

  // ---- The guard every sent file carries ----

  /** Sent either to create the page, or on top of the base: and then the listing showed no other commit. */
  ghost predicate Guarded(s: Store, listing: map<Path, Sha>, f: PushFile) {
    var sha := ShaAt(s.state.shas, f.path);
    && f.expectAbsent == (sha == NoSha)
    && f.parent == sha
    && (f.path in listing ==> listing[f.path] == sha && BaseOf(s, f.path).BaseValid?)
  }

  lemma SentIsGuarded(s: Store, listing: map<Path, Sha>, p: Path)
    requires Sent(s, listing, p).Some?
    ensures Guarded(s, listing, Sent(s, listing, p).value)
    ensures Sent(s, listing, p).value.path == p
  {
    hide HashOf;
  }

  lemma {:induction false} BatchIsGuarded(s: Store, listing: map<Path, Sha>, paths: seq<Path>, i: nat,
                                          found: seq<PushFile>)
    requires i <= |paths| && forall f | f in found :: Guarded(s, listing, f)
    ensures forall f | f in BatchFrom(s, listing, paths, i, found) :: Guarded(s, listing, f)
    decreases |paths| - i
  {
    if i < |paths| {
      var f := Sent(s, listing, paths[i]);
      if f.Some? {
        SentIsGuarded(s, listing, paths[i]);
      }
      hide Sent, Guarded;
      BatchIsGuarded(s, listing, paths, i + 1, if f.Some? then found + [f.value] else found);
    }
  }

  lemma {:induction false} BatchIsCanonical(s: Store, listing: map<Path, Sha>, paths: seq<Path>, i: nat,
                                            found: seq<PushFile>)
    requires NormalizeIsIdempotent()
    requires i <= |paths| && forall f | f in found :: Normalize(f.content) == Some(f.content)
    ensures forall f | f in BatchFrom(s, listing, paths, i, found) :: Normalize(f.content) == Some(f.content)
    decreases |paths| - i
  {
    hide EntryOf;
    if i < |paths| {
      var f := Sent(s, listing, paths[i]);
      BatchIsCanonical(s, listing, paths, i + 1, if f.Some? then found + [f.value] else found);
    }
  }

  /** A page with a stale base is sent exactly when the server does not list it (and it is a page that normalizes):
      its request carries the stale sha, and asks for no absence. */
  lemma StaleBaseIsSentIff(s: Store, listing: map<Path, Sha>, p: Path)
    requires BaseOf(s, p).BaseStale?
    ensures Sent(s, listing, p).Some? <==>
            p !in listing && LocalOf(s.disk.files, p).LocalValid? && Normalize(s.disk.files[p]).Some?
    ensures Sent(s, listing, p).Some? ==>
            Sent(s, listing, p).value.parent == s.state.shas[p] != NoSha && !Sent(s, listing, p).value.expectAbsent
  {
    hide HashOf;
  }

  /** For instance: one page, whose state.json entry has lost its base record. */
  lemma StaleBaseIsSent(p: Path, page: Bytes, sha: Sha)
    requires IsPageAt(p, page) && Normalize(page).Some? && sha != NoSha
    ensures var d := Disk(map[p := page], map[], map[], map[], map[], SyncState(map[p := sha], NoSha), map[], 0);
      && BaseOf(Open(d), p).BaseStale?
      && Sent(Open(d), map[], p) == Some(PushFile(p, Normalize(page).value, sha, false))
  {
  }

  // ---- What is recorded ----

  ghost predicate HonestPushed(v: Server, sent: Batch, a: Pushed) {
    a.path in sent && a.sha != NoSha ==> Honest(v, a.path, a.sha, Wire(sent[a.path].content))
  }

  /** What is sent are canonical forms. */
  ghost predicate Canonical(sent: Batch) {
    forall p | p in sent :: Normalize(sent[p].content) == Some(sent[p].content)
  }

  ghost predicate HonestRefusal(v: Server, a: Refusal) {
    a.sha != NoSha ==> Honest(v, a.path, a.sha, a.content)
  }

  ghost predicate HonestResponse(v: Server, sent: Batch, resp: Response) {
    && (forall k | 0 <= k < |resp.pushed| :: HonestPushed(v, sent, resp.pushed[k]))
    && (forall k | 0 <= k < |resp.conflicts| :: HonestRefusal(v, resp.conflicts[k]))
  }

  ghost predicate HonestSidecars(v: Server, xs: seq<Sidecar>) {
    forall k | 0 <= k < |xs| :: xs[k].rec.serverSha != NoSha ==> IssuedFor(v, xs[k].rec.serverSha, xs[k].path)
  }

  /** The base a push stores for an accepted page has the hash of the server's version exactly when the page, as it was
      sent, arrived unchanged. */
  lemma AcceptedBaseIsTrueIff(v: Server, sent: Batch, a: Pushed)
    requires WireLaws() && Canonical(sent) && HonestPushed(v, sent, a) && a.path in sent && a.sha != NoSha
    ensures var c := sent[a.path].content;
      IssuedFor(v, a.sha, a.path) && (Intact(v.versions[a.sha].content, HashOf(c)) <==> Wire(c) == c)
  {
    IntactIff(sent[a.path].content);
  }

  /** What an answer may be about: the store so far is true, and so is every sha to be recorded. */
  ghost predicate TrueProgress(v: Server, x: Progress) {
    && TrueStore(v, x.store)
    && forall p | p in x.recorded :: x.recorded[p] in v.versions
  }

  lemma TakePushedKeeps(v: Server, lands: Faults, sent: Batch, a: Pushed, x: Progress)
    requires TrueProgress(v, x) && HonestPushed(v, sent, a) && Canonical(sent)
    ensures TrueProgress(v, TakePushed(lands, sent, a, x))
  {
    if a.path in sent && a.sha != NoSha {
      PutBaseKeeps(lands, v, x.store, a.path, sent[a.path].content, a.sha);
    }
    hide TrueStore, PutBase, HashOf;
  }

  /** A sidecar that names no sha is not written, so it cannot name a wrong one. */
  lemma PutAnyConflictKeeps(v: Server, lands: Faults, s: Store, p: Path, rec: ConflictRecord, content: Bytes)
    requires TrueStore(v, s) && (rec.serverSha != NoSha ==> IssuedFor(v, rec.serverSha, p))
    ensures TrueStore(v, PutConflict(lands, s, p, rec, content))
  {
    if rec.serverSha != NoSha {
      PutConflictKeeps(lands, v, s, p, rec, content);
    }
  }

  lemma {:induction false} PushedKeeps(v: Server, lands: Faults, sent: Batch, xs: seq<Pushed>, i: nat, x: Progress)
    requires i <= |xs| && TrueProgress(v, x) && Canonical(sent)
    requires forall k | 0 <= k < |xs| :: HonestPushed(v, sent, xs[k])
    ensures TrueProgress(v, PushedFrom(lands, sent, xs, i, x))
    decreases |xs| - i
  {
    if i < |xs| {
      TakePushedKeeps(v, lands, sent, xs[i], x);
      hide TrueProgress, TakePushed, HonestPushed;
      PushedKeeps(v, lands, sent, xs, i + 1, TakePushed(lands, sent, xs[i], x));
    }
  }

  lemma {:induction false} RefusedKeeps(v: Server, lands: Faults, sent: Batch, xs: seq<Refusal>, i: nat, x: Progress)
    requires i <= |xs| && TrueProgress(v, x) && forall k | 0 <= k < |xs| :: HonestRefusal(v, xs[k])
    ensures TrueProgress(v, RefusedFrom(lands, sent, xs, i, x))
    decreases |xs| - i
  {
    if i < |xs| {
      if xs[i].path in sent {
        var rec := RefusalRecord(sent[xs[i].path], xs[i]);
        PutAnyConflictKeeps(v, lands, x.store, xs[i].path, rec, Sanitize(xs[i].content));
      }
      hide TrueStore, PutConflict;
      RefusedKeeps(v, lands, sent, xs, i + 1, TakeRefusal(lands, sent, xs[i], x));
    }
  }

  lemma {:induction false} RecordKeeps(v: Server, lands: Faults, xs: seq<Sidecar>, i: nat, x: Progress)
    requires i <= |xs| && TrueProgress(v, x) && HonestSidecars(v, xs)
    ensures TrueProgress(v, RecordFrom(lands, xs, i, x))
    decreases |xs| - i
  {
    if i < |xs| {
      PutAnyConflictKeeps(v, lands, x.store, xs[i].path, xs[i].rec, xs[i].content);
      hide TrueStore, PutConflict;
      RecordKeeps(v, lands, xs, i + 1, TakeSidecar(lands, xs[i], x));
    }
  }

  lemma {:induction false} ClearKeeps(v: Server, lands: Faults, ps: seq<Path>, i: nat, x: Progress)
    requires i <= |ps| && TrueProgress(v, x)
    ensures TrueProgress(v, ClearFrom(lands, ps, i, x))
    decreases |ps| - i
  {
    if i < |ps| {
      ClearConflictKeeps(lands, v, x.store, ps[i]);
      hide TrueStore, ClearConflict;
      ClearKeeps(v, lands, ps, i + 1, ClearPushed(lands, ps[i], x));
    }
  }

  lemma SaveProgressKeeps(v: Server, lands: Faults, x: Progress)
    requires TrueProgress(v, x)
    ensures TrueStore(v, SaveProgress(lands, x))
  {
    SavesKeep(lands, v, x.store);
    var s1 := if x.bases then SaveBases(lands, x.store) else x.store;
    SavesKeep(lands, v, s1);
    var s2 := if x.conflicts then SaveConflicts(lands, s1) else s1;
    var s3 := s2.(state := s2.state.(shas := s2.state.shas + x.recorded));
    assert TrueStore(v, s3);
    SavesKeep(lands, v, s3);
    hide SaveBases, SaveConflicts, SaveState, TrueStore;
  }

  /** Whatever the server accepted or refused, and whatever subset of the writes reaches the disk, every base is
      true. */
  lemma PushKeepsBasesTrue(v: Server, lands: Faults, s: Store, sent: Batch, resp: Response, sidecars: seq<Sidecar>)
    requires TrueStore(v, s) && Canonical(sent) && HonestResponse(v, sent, resp) && HonestSidecars(v, sidecars)
    ensures TrueStore(v, ApplyAnswer(lands, s, sent, resp, sidecars))
  {
    var x0 := Progress(s, {}, map[], [], false, false);
    PushedKeeps(v, lands, sent, resp.pushed, 0, x0);
    var x1 := PushedFrom(lands, sent, resp.pushed, 0, x0);
    RefusedKeeps(v, lands, sent, resp.conflicts, 0, x1);
    var x2 := RefusedFrom(lands, sent, resp.conflicts, 0, x1);
    RecordKeeps(v, lands, sidecars, 0, x2);
    var x3 := RecordFrom(lands, sidecars, 0, x2);
    ClearKeeps(v, lands, x3.order, 0, x3);
    SaveProgressKeeps(v, lands, Answered(lands, s, sent, resp, sidecars));
    hide TrueProgress, PushedFrom, RefusedFrom, RecordFrom, ClearFrom, SaveProgress;
  }

  // ---- Only an accepted page moves ----

  /** The page was sent and accepted under a sha. */
  ghost predicate AcceptedIn(sent: Batch, xs: seq<Pushed>, p: Path) {
    p in sent && exists k :: 0 <= k < |xs| && xs[k].path == p && xs[k].sha != NoSha
  }

  /** The base and the sha of page `p` are as they were. */
  ghost predicate SameBase(s: Store, t: Store, p: Path) {
    && (p in t.bases <==> p in s.bases) && (p in s.bases ==> t.bases[p] == s.bases[p])
    && ShaAt(t.state.shas, p) == ShaAt(s.state.shas, p)
    && ShaAt(t.disk.state.shas, p) == ShaAt(s.disk.state.shas, p)
  }

  ghost predicate Unmoved(s: Store, x: Progress, p: Path) {
    SameBase(s, x.store, p) && p !in x.recorded && x.store.state == s.state && x.store.disk.state == s.disk.state
  }

  lemma {:induction false} PushedLeaves(lands: Faults, s: Store, sent: Batch, xs: seq<Pushed>, i: nat, x: Progress,
                                        p: Path)
    requires i <= |xs| && Unmoved(s, x, p) && !AcceptedIn(sent, xs, p)
    ensures Unmoved(s, PushedFrom(lands, sent, xs, i, x), p)
    decreases |xs| - i
  {
    if i < |xs| {
      assert xs[i].path in sent && xs[i].path == p ==> xs[i].sha == NoSha;
      PushedLeaves(lands, s, sent, xs, i + 1, TakePushed(lands, sent, xs[i], x), p);
    }
  }

  lemma {:induction false} RefusedLeaves(lands: Faults, s: Store, sent: Batch, xs: seq<Refusal>, i: nat, x: Progress,
                                         p: Path)
    requires i <= |xs| && Unmoved(s, x, p)
    ensures Unmoved(s, RefusedFrom(lands, sent, xs, i, x), p)
    decreases |xs| - i
  {
    if i < |xs| {
      RefusedLeaves(lands, s, sent, xs, i + 1, TakeRefusal(lands, sent, xs[i], x), p);
    }
  }

  lemma {:induction false} RecordLeaves(lands: Faults, s: Store, xs: seq<Sidecar>, i: nat, x: Progress, p: Path)
    requires i <= |xs| && Unmoved(s, x, p)
    ensures Unmoved(s, RecordFrom(lands, xs, i, x), p)
    decreases |xs| - i
  {
    if i < |xs| {
      RecordLeaves(lands, s, xs, i + 1, TakeSidecar(lands, xs[i], x), p);
    }
  }

  lemma {:induction false} ClearLeaves(lands: Faults, s: Store, ps: seq<Path>, i: nat, x: Progress, p: Path)
    requires i <= |ps| && Unmoved(s, x, p)
    ensures Unmoved(s, ClearFrom(lands, ps, i, x), p)
    decreases |ps| - i
  {
    if i < |ps| {
      ClearLeaves(lands, s, ps, i + 1, ClearPushed(lands, ps[i], x), p);
    }
  }

  lemma SaveLeaves(lands: Faults, s: Store, x: Progress, p: Path)
    requires Unmoved(s, x, p) && s.state == s.disk.state
    ensures SameBase(s, SaveProgress(lands, x), p)
  {
    var s1 := if x.bases then SaveBases(lands, x.store) else x.store;
    assert SameBase(s, s1, p) && s1.state == s.state && s1.disk.state == s.disk.state;
    var s2 := if x.conflicts then SaveConflicts(lands, s1) else s1;
    assert SameBase(s, s2, p) && s2.state == s.state && s2.disk.state == s.disk.state;
    var s3 := s2.(state := s2.state.(shas := s2.state.shas + x.recorded));
    assert ShaAt(s3.state.shas, p) == ShaAt(s.state.shas, p);
    assert SameBase(s, s3, p);
    assert SameBase(s, SaveState(lands, s3), p);
    hide SaveBases, SaveConflicts, SaveState, SameBase;
  }

  /** A page the server refused, or was not asked about, keeps its base and its page_shas value, in memory and on
      disk. */
  lemma RefusedPageKeepsItsBase(lands: Faults, s: Store, sent: Batch, resp: Response, sidecars: seq<Sidecar>, p: Path)
    requires !AcceptedIn(sent, resp.pushed, p) && s.state == s.disk.state
    ensures SameBase(s, ApplyAnswer(lands, s, sent, resp, sidecars), p)
  {
    var x0 := Progress(s, {}, map[], [], false, false);
    PushedLeaves(lands, s, sent, resp.pushed, 0, x0, p);
    var x1 := PushedFrom(lands, sent, resp.pushed, 0, x0);
    RefusedLeaves(lands, s, sent, resp.conflicts, 0, x1, p);
    var x2 := RefusedFrom(lands, sent, resp.conflicts, 0, x1);
    RecordLeaves(lands, s, sidecars, 0, x2, p);
    var x3 := RecordFrom(lands, sidecars, 0, x2);
    ClearLeaves(lands, s, x3.order, 0, x3, p);
    SaveLeaves(lands, s, Answered(lands, s, sent, resp, sidecars), p);
    hide Unmoved, PushedFrom, RefusedFrom, RecordFrom, ClearFrom, SaveProgress, SameBase;
  }

  // ---- An accepted page is settled ----

  /** The page has been recorded: its base is the sent content at the sha the server gave it. */
  ghost predicate Recorded(x: Progress, p: Path, sha: Sha, content: Bytes) {
    && p in x.seen && p in x.order && p in x.recorded && x.recorded[p] == sha
    && p in x.store.bases && x.store.bases[p] == BaseRecord(sha, HashOf(content)) && p in x.store.disk.baseFiles
    && x.bases
  }

  /** Files of the hub, which no part of a push touches. */
  ghost predicate SameFiles(s: Store, x: Progress) {
    x.store.disk.files == s.disk.files
  }

  lemma {:induction false} PushedRecords(lands: Faults, s: Store, sent: Batch, xs: seq<Pushed>, i: nat, k: nat,
                                         x: Progress)
    requires NoFaults(lands) && i <= |xs| && k < |xs| && xs[k].path in sent && xs[k].sha != NoSha
    requires forall j | 0 <= j < k :: xs[j].path != xs[k].path
    requires SameFiles(s, x)
    requires if i <= k then xs[k].path !in x.seen else Recorded(x, xs[k].path, xs[k].sha, sent[xs[k].path].content)
    ensures var y := PushedFrom(lands, sent, xs, i, x);
      SameFiles(s, y) && Recorded(y, xs[k].path, xs[k].sha, sent[xs[k].path].content)
    decreases |xs| - i
  {
    hide HashOf;
    if i < |xs| {
      PushedRecords(lands, s, sent, xs, i + 1, k, TakePushed(lands, sent, xs[i], x));
    }
  }

  lemma {:induction false} RefusedKeepsRecord(lands: Faults, s: Store, sent: Batch, xs: seq<Refusal>, i: nat,
                                              x: Progress, p: Path, sha: Sha, c: Bytes)
    requires i <= |xs| && SameFiles(s, x) && Recorded(x, p, sha, c)
    ensures var y := RefusedFrom(lands, sent, xs, i, x); SameFiles(s, y) && Recorded(y, p, sha, c)
    decreases |xs| - i
  {
    hide HashOf;
    if i < |xs| {
      RefusedKeepsRecord(lands, s, sent, xs, i + 1, TakeRefusal(lands, sent, xs[i], x), p, sha, c);
    }
  }

  lemma {:induction false} SidecarsKeepRecord(lands: Faults, s: Store, xs: seq<Sidecar>, i: nat, x: Progress,
                                              p: Path, sha: Sha, c: Bytes)
    requires i <= |xs| && SameFiles(s, x) && Recorded(x, p, sha, c)
    ensures var y := RecordFrom(lands, xs, i, x); SameFiles(s, y) && Recorded(y, p, sha, c)
    decreases |xs| - i
  {
    hide HashOf;
    if i < |xs| {
      SidecarsKeepRecord(lands, s, xs, i + 1, TakeSidecar(lands, xs[i], x), p, sha, c);
    }
  }

  lemma {:induction false} ClearDrops(lands: Faults, s: Store, ps: seq<Path>, i: nat, x: Progress, p: Path, sha: Sha,
                                      c: Bytes)
    requires NoFaults(lands) && i <= |ps| && SameFiles(s, x) && Recorded(x, p, sha, c)
    requires p in ps[i..] || p !in x.store.conflicts
    ensures var y := ClearFrom(lands, ps, i, x); SameFiles(s, y) && Recorded(y, p, sha, c) && p !in y.store.conflicts
    decreases |ps| - i
  {
    hide HashOf;
    if i < |ps| {
      assert ps[i..] == [ps[i]] + ps[i + 1..];
      ClearDrops(lands, s, ps, i + 1, ClearPushed(lands, ps[i], x), p, sha, c);
    }
  }

  /** What a finished push leaves of a recorded page, once every write has reached the disk. */
  lemma SavedRecord(lands: Faults, s: Store, x: Progress, p: Path, sha: Sha, c: Bytes)
    requires NoFaults(lands) && SameFiles(s, x) && Recorded(x, p, sha, c) && p !in x.store.conflicts
    ensures var t := SaveProgress(lands, x);
      && t.disk.files == s.disk.files && p !in t.conflicts
      && ShaAt(t.disk.state.shas, p) == ShaAt(t.state.shas, p) == sha
      && p in t.disk.bases && t.disk.bases[p] == BaseRecord(sha, HashOf(c)) && p in t.disk.baseFiles
      && p in t.bases && t.bases[p] == BaseRecord(sha, HashOf(c))
  {
    hide HashOf;
    var s1 := SaveBases(lands, x.store);
    var s2 := if x.conflicts then SaveConflicts(lands, s1) else s1;
    assert s2.disk.files == s.disk.files && p !in s2.conflicts && s2.disk.bases == s2.bases == x.store.bases;
    assert x.recorded != map[];
  }

  /** A page that is not edited meanwhile is unchanged after the server accepted it: its file, its base and the
      server's head are the same page. Of several answers about one page the first counts. */
  lemma PushedPageIsUnchanged(lands: Faults, s: Store, sent: Batch, resp: Response, sidecars: seq<Sidecar>, k: nat,
                              listing: map<Path, Sha>)
    requires NormalizeIsIdempotent() && NoFaults(lands) && k < |resp.pushed|
    requires forall j | 0 <= j < k :: resp.pushed[j].path != resp.pushed[k].path
    requires var a := resp.pushed[k];
      && a.path in sent && a.sha != NoSha && a.path in listing && listing[a.path] == a.sha
      && a.path in s.disk.files && IsPageAt(a.path, s.disk.files[a.path])
      && Normalize(s.disk.files[a.path]) == Some(sent[a.path].content)
    ensures var t := ApplyAnswer(lands, s, sent, resp, sidecars);
      FactsState(Gather(t, resp.pushed[k].path, Some(listing))) == Unchanged
  {
    var p, sha, c := resp.pushed[k].path, resp.pushed[k].sha, sent[resp.pushed[k].path].content;
    var x0 := Progress(s, {}, map[], [], false, false);
    PushedRecords(lands, s, sent, resp.pushed, 0, k, x0);
    var x1 := PushedFrom(lands, sent, resp.pushed, 0, x0);
    RefusedKeepsRecord(lands, s, sent, resp.conflicts, 0, x1, p, sha, c);
    var x2 := RefusedFrom(lands, sent, resp.conflicts, 0, x1);
    SidecarsKeepRecord(lands, s, sidecars, 0, x2, p, sha, c);
    var x3 := RecordFrom(lands, sidecars, 0, x2);
    ClearDrops(lands, s, x3.order, 0, x3, p, sha, c);
    var x4 := Answered(lands, s, sent, resp, sidecars);
    SavedRecord(lands, s, x4, p, sha, c);
    assert HashOf(s.disk.files[p]) == HashOf(c);
    hide PushedFrom, RefusedFrom, RecordFrom, ClearFrom, SaveProgress, Recorded, HashOf;
  }

  // ---- An accepted page moves, whichever writes fail ----

  /** The page's new sha is going to be recorded, and its base is the sent content at that sha, or none at it. */
  ghost predicate Moving(x: Progress, p: Path, sha: Sha, content: Bytes) {
    && p in x.recorded && x.recorded[p] == sha && p in x.seen
    && (p in x.store.bases ==> x.store.bases[p] == BaseRecord(sha, HashOf(content)) || x.store.bases[p].sha != sha)
  }

  lemma TakePushedMoves(lands: Faults, sent: Batch, a: Pushed, x: Progress, p: Path, sha: Sha)
    requires p in sent && sha != NoSha
    requires if p in x.seen then Moving(x, p, sha, sent[p].content)
             else (p in x.store.bases ==> x.store.bases[p].sha != sha) && (a.path == p ==> a.sha == sha)
    ensures var y := TakePushed(lands, sent, a, x);
      if p in y.seen then Moving(y, p, sha, sent[p].content)
      else a.path != p && (p in y.store.bases ==> y.store.bases[p].sha != sha)
  {
    hide HashOf;
  }

  lemma {:induction false} PushedMoves(lands: Faults, sent: Batch, xs: seq<Pushed>, i: nat, k: nat, x: Progress)
    requires i <= |xs| && k < |xs| && xs[k].path in sent && xs[k].sha != NoSha
    requires forall j | 0 <= j < k :: xs[j].path != xs[k].path
    requires if xs[k].path in x.seen then i > k && Moving(x, xs[k].path, xs[k].sha, sent[xs[k].path].content)
             else i <= k && (xs[k].path in x.store.bases ==> x.store.bases[xs[k].path].sha != xs[k].sha)
    ensures Moving(PushedFrom(lands, sent, xs, i, x), xs[k].path, xs[k].sha, sent[xs[k].path].content)
    decreases |xs| - i
  {
    hide HashOf, Moving, TakePushed;
    if i < |xs| {
      TakePushedMoves(lands, sent, xs[i], x, xs[k].path, xs[k].sha);
      TakesItsPath(lands, sent, xs[i], x);
      PushedMoves(lands, sent, xs, i + 1, k, TakePushed(lands, sent, xs[i], x));
    }
  }

  lemma TakesItsPath(lands: Faults, sent: Batch, a: Pushed, x: Progress)
    ensures TakePushed(lands, sent, a, x).seen == if a.path in sent then x.seen + {a.path} else x.seen
  {
    hide PutBase, HashOf;
  }

  lemma {:induction false} RefusedMoves(lands: Faults, sent: Batch, xs: seq<Refusal>, i: nat, x: Progress, p: Path,
                                        sha: Sha, c: Bytes)
    requires i <= |xs| && Moving(x, p, sha, c)
    ensures Moving(RefusedFrom(lands, sent, xs, i, x), p, sha, c)
    decreases |xs| - i
  {
    hide HashOf;
    if i < |xs| {
      RefusedMoves(lands, sent, xs, i + 1, TakeRefusal(lands, sent, xs[i], x), p, sha, c);
    }
  }

  lemma {:induction false} SidecarsMove(lands: Faults, xs: seq<Sidecar>, i: nat, x: Progress, p: Path, sha: Sha,
                                        c: Bytes)
    requires i <= |xs| && Moving(x, p, sha, c)
    ensures Moving(RecordFrom(lands, xs, i, x), p, sha, c)
    decreases |xs| - i
  {
    hide HashOf;
    if i < |xs| {
      SidecarsMove(lands, xs, i + 1, TakeSidecar(lands, xs[i], x), p, sha, c);
    }
  }

  lemma {:induction false} ClearMoves(lands: Faults, ps: seq<Path>, i: nat, x: Progress, p: Path, sha: Sha, c: Bytes)
    requires i <= |ps| && Moving(x, p, sha, c)
    ensures Moving(ClearFrom(lands, ps, i, x), p, sha, c)
    decreases |ps| - i
  {
    hide HashOf;
    if i < |ps| {
      ClearMoves(lands, ps, i + 1, ClearPushed(lands, ps[i], x), p, sha, c);
    }
  }

  lemma SavedMoves(lands: Faults, x: Progress, p: Path, sha: Sha, c: Bytes)
    requires Moving(x, p, sha, c) && sha != NoSha
    ensures var t := SaveProgress(lands, x);
      && ShaAt(t.state.shas, p) == sha && BaseOf(t, p) in {BaseValid(sha, HashOf(c)), BaseStale(sha)}
      && (t.disk.writes > 0 && lands(t.disk.writes - 1) ==> t.disk.state == t.state)
  {
    hide HashOf;
    assert x.recorded != map[];
  }

  /** Whichever writes fail, an accepted page moves to the sha the server gave it, and is then based on what was sent
      or on nothing - a stale base, which a repair fetches again. It is never taken for a page edited since its old
      base. */
  lemma AcceptedPageMoves(lands: Faults, s: Store, sent: Batch, resp: Response, sidecars: seq<Sidecar>, k: nat)
    requires k < |resp.pushed| && resp.pushed[k].path in sent && resp.pushed[k].sha != NoSha
    requires forall j | 0 <= j < k :: resp.pushed[j].path != resp.pushed[k].path
    requires resp.pushed[k].path in s.bases ==> s.bases[resp.pushed[k].path].sha != resp.pushed[k].sha
    ensures var a := resp.pushed[k]; var t := ApplyAnswer(lands, s, sent, resp, sidecars);
      && ShaAt(t.state.shas, a.path) == a.sha
      && BaseOf(t, a.path) in {BaseValid(a.sha, HashOf(sent[a.path].content)), BaseStale(a.sha)}
      && (t.disk.writes > 0 && lands(t.disk.writes - 1) ==> t.disk.state == t.state)
  {
    hide PushedFrom, RefusedFrom, RecordFrom, ClearFrom, SaveProgress, Moving, HashOf, BaseOf;
    var p, sha, c := resp.pushed[k].path, resp.pushed[k].sha, sent[resp.pushed[k].path].content;
    var x0 := Progress(s, {}, map[], [], false, false);
    PushedMoves(lands, sent, resp.pushed, 0, k, x0);
    var x1 := PushedFrom(lands, sent, resp.pushed, 0, x0);
    RefusedMoves(lands, sent, resp.conflicts, 0, x1, p, sha, c);
    var x2 := RefusedFrom(lands, sent, resp.conflicts, 0, x1);
    SidecarsMove(lands, sidecars, 0, x2, p, sha, c);
    var x3 := RecordFrom(lands, sidecars, 0, x2);
    ClearMoves(lands, x3.order, 0, x3, p, sha, c);
    SavedMoves(lands, Answered(lands, s, sent, resp, sidecars), p, sha, c);
  }

  // ---- A push leaves the files alone ----

  lemma {:induction false} PushedLeaveFiles(lands: Faults, sent: Batch, xs: seq<Pushed>, i: nat, x: Progress)
    requires i <= |xs|
    ensures SameTree(x.store, PushedFrom(lands, sent, xs, i, x).store)
    decreases |xs| - i
  {
    hide PutBase;
    if i < |xs| {
      if xs[i].path in sent {
        StoreWritesLeaveTree(lands, x.store, xs[i].path, sent[xs[i].path].content, xs[i].sha,
                             ConflictRecord(NoSha, NoSha, BothAdded, false));
      }
      PushedLeaveFiles(lands, sent, xs, i + 1, TakePushed(lands, sent, xs[i], x));
    }
  }

  lemma {:induction false} RefusedLeaveFiles(lands: Faults, sent: Batch, xs: seq<Refusal>, i: nat, x: Progress)
    requires i <= |xs|
    ensures SameTree(x.store, RefusedFrom(lands, sent, xs, i, x).store)
    decreases |xs| - i
  {
    hide PutConflict;
    if i < |xs| {
      if xs[i].path in sent {
        StoreWritesLeaveTree(lands, x.store, xs[i].path, Sanitize(xs[i].content), NoSha,
                             RefusalRecord(sent[xs[i].path], xs[i]));
      }
      RefusedLeaveFiles(lands, sent, xs, i + 1, TakeRefusal(lands, sent, xs[i], x));
    }
  }

  lemma {:induction false} RecordLeaveFiles(lands: Faults, xs: seq<Sidecar>, i: nat, x: Progress)
    requires i <= |xs|
    ensures SameTree(x.store, RecordFrom(lands, xs, i, x).store)
    decreases |xs| - i
  {
    hide PutConflict;
    if i < |xs| {
      StoreWritesLeaveTree(lands, x.store, xs[i].path, xs[i].content, NoSha, xs[i].rec);
      RecordLeaveFiles(lands, xs, i + 1, TakeSidecar(lands, xs[i], x));
    }
  }

  lemma {:induction false} ClearLeaveFiles(lands: Faults, ps: seq<Path>, i: nat, x: Progress)
    requires i <= |ps|
    ensures SameTree(x.store, ClearFrom(lands, ps, i, x).store)
    decreases |ps| - i
  {
    hide ClearConflict;
    if i < |ps| {
      StoreWritesLeaveTree(lands, x.store, ps[i], EMPTY, NoSha, ConflictRecord(NoSha, NoSha, BothAdded, false));
      ClearLeaveFiles(lands, ps, i + 1, ClearPushed(lands, ps[i], x));
    }
  }

  lemma PushLeavesFiles(lands: Faults, s: Store, sent: Batch, resp: Response, sidecars: seq<Sidecar>)
    ensures SameTree(s, ApplyAnswer(lands, s, sent, resp, sidecars))
  {
    hide PushedFrom, RefusedFrom, RecordFrom, ClearFrom, SaveBases, SaveConflicts, SaveState;
    var x0 := Progress(s, {}, map[], [], false, false);
    PushedLeaveFiles(lands, sent, resp.pushed, 0, x0);
    var x1 := PushedFrom(lands, sent, resp.pushed, 0, x0);
    RefusedLeaveFiles(lands, sent, resp.conflicts, 0, x1);
    var x2 := RefusedFrom(lands, sent, resp.conflicts, 0, x1);
    RecordLeaveFiles(lands, sidecars, 0, x2);
    var x3 := RecordFrom(lands, sidecars, 0, x2);
    ClearLeaveFiles(lands, x3.order, 0, x3);
    var x := Answered(lands, s, sent, resp, sidecars);
    SavesLeaveTree(lands, x.store);
    var s1 := if x.bases then SaveBases(lands, x.store) else x.store;
    SavesLeaveTree(lands, s1);
    var s2 := if x.conflicts then SaveConflicts(lands, s1) else s1;
    SavesLeaveTree(lands, s2.(state := s2.state.(shas := s2.state.shas + x.recorded)));
  }

  // ---- A refusal is recorded ----

  /** The sidecar is recorded, with its text, and is going to stay. */
  ghost predicate Noted(x: Progress, p: Path, rec: ConflictRecord, text: Bytes) {
    && p in x.store.conflicts && x.store.conflicts[p] == rec && x.conflicts && p !in x.order
    && At(x.store.disk.sidecarFiles, p) == if text == EMPTY then None else Some(text)
  }

  lemma {:induction false} PushedNever(lands: Faults, sent: Batch, xs: seq<Pushed>, i: nat, x: Progress, p: Path)
    requires i <= |xs| && p !in x.seen && p !in x.order && forall j | 0 <= j < |xs| :: xs[j].path != p
    ensures var y := PushedFrom(lands, sent, xs, i, x); p !in y.seen && p !in y.order
    decreases |xs| - i
  {
    hide PutBase;
    if i < |xs| {
      PushedNever(lands, sent, xs, i + 1, TakePushed(lands, sent, xs[i], x), p);
    }
  }

  lemma {:induction false} RefusedNotes(lands: Faults, sent: Batch, xs: seq<Refusal>, i: nat, k: nat, x: Progress)
    requires NoFaults(lands) && i <= |xs| && k < |xs| && xs[k].path in sent && xs[k].sha != NoSha
    requires forall j | 0 <= j < k :: xs[j].path != xs[k].path
    requires var rec := NormalizeConflict(RefusalRecord(sent[xs[k].path], xs[k]), Sanitize(xs[k].content));
      if i <= k then xs[k].path !in x.seen && xs[k].path !in x.order
      else xs[k].path in x.seen && Noted(x, xs[k].path, rec, Sanitize(xs[k].content))
    ensures Noted(RefusedFrom(lands, sent, xs, i, x), xs[k].path,
                  NormalizeConflict(RefusalRecord(sent[xs[k].path], xs[k]), Sanitize(xs[k].content)),
                  Sanitize(xs[k].content))
    decreases |xs| - i
  {
    hide NormalizeConflict;
    if i < |xs| {
      RefusedNotes(lands, sent, xs, i + 1, k, TakeRefusal(lands, sent, xs[i], x));
    }
  }

  lemma {:induction false} SidecarsKeepNote(lands: Faults, xs: seq<Sidecar>, i: nat, x: Progress, p: Path,
                                            rec: ConflictRecord, text: Bytes)
    requires i <= |xs| && Noted(x, p, rec, text) && forall j | i <= j < |xs| :: xs[j].path != p
    ensures Noted(RecordFrom(lands, xs, i, x), p, rec, text)
    decreases |xs| - i
  {
    hide NormalizeConflict;
    if i < |xs| {
      SidecarsKeepNote(lands, xs, i + 1, TakeSidecar(lands, xs[i], x), p, rec, text);
    }
  }

  lemma {:induction false} ClearKeepsNote(lands: Faults, ps: seq<Path>, i: nat, x: Progress, p: Path,
                                          rec: ConflictRecord, text: Bytes)
    requires i <= |ps| && Noted(x, p, rec, text) && forall j | 0 <= j < |ps| :: ps[j] != p
    ensures Noted(ClearFrom(lands, ps, i, x), p, rec, text)
    decreases |ps| - i
  {
    if i < |ps| {
      ClearKeepsNote(lands, ps, i + 1, ClearPushed(lands, ps[i], x), p, rec, text);
    }
  }

  lemma SavedNote(lands: Faults, x: Progress, p: Path, rec: ConflictRecord, text: Bytes)
    requires NoFaults(lands) && Noted(x, p, rec, text)
    ensures var t := SaveProgress(lands, x); NotedOnDisk(t.disk, p, rec, text)
  {
  }

  ghost predicate NotedOnDisk(d: Disk, p: Path, rec: ConflictRecord, text: Bytes) {
    && p in d.conflicts && d.conflicts[p] == rec
    && At(d.sidecarFiles, p) == if text == EMPTY then None else Some(text)
  }

  /** A file the server refused leaves, on disk, a sidecar naming the server's commit: a conflict with the base it
      was sent on top of, or with a page that was not to exist. */
  lemma RefusalIsRecorded(lands: Faults, s: Store, sent: Batch, resp: Response, sidecars: seq<Sidecar>, k: nat)
    requires NoFaults(lands) && k < |resp.conflicts|
    requires resp.conflicts[k].path in sent && resp.conflicts[k].sha != NoSha
    requires forall j | 0 <= j < k :: resp.conflicts[j].path != resp.conflicts[k].path
    requires forall j | 0 <= j < |resp.pushed| :: resp.pushed[j].path != resp.conflicts[k].path
    requires forall j | 0 <= j < |sidecars| :: sidecars[j].path != resp.conflicts[k].path
    ensures var a := resp.conflicts[k]; var t := ApplyAnswer(lands, s, sent, resp, sidecars); var f := sent[a.path];
      NotedOnDisk(t.disk, a.path, ConflictRecord(a.sha, if f.expectAbsent then NoSha else f.parent,
                                                 if f.expectAbsent then BothAdded else BothModified,
                                                 Sanitize(a.content) != EMPTY), Sanitize(a.content))
  {
    hide PushedFrom, RefusedFrom, RecordFrom, ClearFrom, SaveProgress;
    var a := resp.conflicts[k];
    var rec := NormalizeConflict(RefusalRecord(sent[a.path], a), Sanitize(a.content));
    var x0 := Progress(s, {}, map[], [], false, false);
    PushedNever(lands, sent, resp.pushed, 0, x0, a.path);
    var x1 := PushedFrom(lands, sent, resp.pushed, 0, x0);
    RefusedNotes(lands, sent, resp.conflicts, 0, k, x1);
    var x2 := RefusedFrom(lands, sent, resp.conflicts, 0, x1);
    SidecarsKeepNote(lands, sidecars, 0, x2, a.path, rec, Sanitize(a.content));
    var x3 := RecordFrom(lands, sidecars, 0, x2);
    ClearKeepsNote(lands, x3.order, 0, x3, a.path, rec, Sanitize(a.content));
    SavedNote(lands, Answered(lands, s, sent, resp, sidecars), a.path, rec, Sanitize(a.content));
  }

  lemma {:induction false} SidecarNotes(lands: Faults, xs: seq<Sidecar>, i: nat, k: nat, x: Progress)
    requires NoFaults(lands) && i <= k < |xs| && xs[k].rec.serverSha != NoSha && xs[k].path !in x.order
    requires forall j | 0 <= j < |xs| && j != k :: xs[j].path != xs[k].path
    ensures Noted(RecordFrom(lands, xs, i, x), xs[k].path, NormalizeConflict(xs[k].rec, xs[k].content), xs[k].content)
    decreases |xs| - i
  {
    hide NormalizeConflict;
    if i < k {
      SidecarNotes(lands, xs, i + 1, k, TakeSidecar(lands, xs[i], x));
    } else {
      SidecarsKeepNote(lands, xs, i + 1, TakeSidecar(lands, xs[i], x), xs[k].path,
                       NormalizeConflict(xs[k].rec, xs[k].content), xs[k].content);
    }
  }

  /** A conflict found in the listing is on disk afterwards, with the version it is with. */
  lemma ListedConflictIsRecorded(lands: Faults, s: Store, sent: Batch, resp: Response, sidecars: seq<Sidecar>, k: nat)
    requires NoFaults(lands) && k < |sidecars| && sidecars[k].rec.serverSha != NoSha
    requires forall j | 0 <= j < |sidecars| && j != k :: sidecars[j].path != sidecars[k].path
    requires forall j | 0 <= j < |resp.pushed| :: resp.pushed[j].path != sidecars[k].path
    ensures var sc := sidecars[k]; var t := ApplyAnswer(lands, s, sent, resp, sidecars);
      NotedOnDisk(t.disk, sc.path,
                  ConflictRecord(sc.rec.serverSha, if sc.rec.kind.BothAdded? then NoSha else sc.rec.baseSha,
                                 sc.rec.kind, sc.content != EMPTY), sc.content)
  {
    hide PushedFrom, RefusedFrom, RecordFrom, ClearFrom, SaveProgress;
    var sc := sidecars[k];
    var rec := NormalizeConflict(sc.rec, sc.content);
    var x0 := Progress(s, {}, map[], [], false, false);
    PushedNever(lands, sent, resp.pushed, 0, x0, sc.path);
    var x1 := PushedFrom(lands, sent, resp.pushed, 0, x0);
    RefusedKeepOrder(lands, sent, resp.conflicts, 0, x1);
    var x2 := RefusedFrom(lands, sent, resp.conflicts, 0, x1);
    SidecarNotes(lands, sidecars, 0, k, x2);
    var x3 := RecordFrom(lands, sidecars, 0, x2);
    ClearKeepsNote(lands, x3.order, 0, x3, sc.path, rec, sc.content);
    SavedNote(lands, Answered(lands, s, sent, resp, sidecars), sc.path, rec, sc.content);
  }

  lemma {:induction false} RefusedKeepOrder(lands: Faults, sent: Batch, xs: seq<Refusal>, i: nat, x: Progress)
    requires i <= |xs|
    ensures RefusedFrom(lands, sent, xs, i, x).order == x.order
    decreases |xs| - i
  {
    hide PutConflict;
    if i < |xs| {
      RefusedKeepOrder(lands, sent, xs, i + 1, TakeRefusal(lands, sent, xs[i], x));
    }
  }

  // ---- What is on disk afterwards is what is in memory ----

  /** An index copy that is not marked changed is what the disk has; state.json is as it was loaded. */
  ghost predicate Marked(x: Progress) {
    && (!x.bases ==> x.store.bases == x.store.disk.bases)
    && (!x.conflicts ==> x.store.conflicts == x.store.disk.conflicts)
    && x.store.state == x.store.disk.state
  }

  lemma TakePushedMarked(lands: Faults, sent: Batch, a: Pushed, x: Progress)
    requires Marked(x)
    ensures Marked(TakePushed(lands, sent, a, x))
  {
    if a.path in sent && a.path !in x.seen && a.sha != NoSha {
      PutBaseMarks(lands, x.store, a.path, sent[a.path].content, a.sha);
    }
    hide PutBase, PutBaseOk;
  }

  /** A base that could not be stored changes nothing. */
  lemma PutBaseMarks(lands: Faults, s: Store, p: Path, c: Bytes, sha: Sha)
    ensures var t := PutBase(lands, s, p, c, sha);
      && t.conflicts == s.conflicts && t.state == s.state && t.disk.state == s.disk.state
      && t.disk.conflicts == s.disk.conflicts && t.disk.bases == s.disk.bases
      && (!PutBaseOk(lands, s, sha) ==> t.bases == s.bases)
  {
    hide HashOf;
  }

  lemma {:induction false} PushedMarked(lands: Faults, sent: Batch, xs: seq<Pushed>, i: nat, x: Progress)
    requires i <= |xs| && Marked(x)
    ensures Marked(PushedFrom(lands, sent, xs, i, x))
    decreases |xs| - i
  {
    hide TakePushed, Marked;
    if i < |xs| {
      TakePushedMarked(lands, sent, xs[i], x);
      PushedMarked(lands, sent, xs, i + 1, TakePushed(lands, sent, xs[i], x));
    }
  }

  lemma {:induction false} RefusedMarked(lands: Faults, sent: Batch, xs: seq<Refusal>, i: nat, x: Progress)
    requires i <= |xs| && Marked(x)
    ensures Marked(RefusedFrom(lands, sent, xs, i, x))
    decreases |xs| - i
  {
    if i < |xs| {
      RefusedMarked(lands, sent, xs, i + 1, TakeRefusal(lands, sent, xs[i], x));
    }
  }

  lemma {:induction false} RecordMarked(lands: Faults, xs: seq<Sidecar>, i: nat, x: Progress)
    requires i <= |xs| && Marked(x)
    ensures Marked(RecordFrom(lands, xs, i, x))
    decreases |xs| - i
  {
    if i < |xs| {
      RecordMarked(lands, xs, i + 1, TakeSidecar(lands, xs[i], x));
    }
  }

  lemma {:induction false} ClearMarked(lands: Faults, ps: seq<Path>, i: nat, x: Progress)
    requires i <= |ps| && Marked(x)
    ensures Marked(ClearFrom(lands, ps, i, x))
    decreases |ps| - i
  {
    if i < |ps| {
      ClearMarked(lands, ps, i + 1, ClearPushed(lands, ps[i], x));
    }
  }

  /** When nothing fails, everything a push changed is on disk: a hub opened afterwards is the one in memory. */
  lemma PushIsSaved(lands: Faults, s: Store, sent: Batch, resp: Response, sidecars: seq<Sidecar>)
    requires NoFaults(lands) && Open(s.disk) == s
    ensures var t := ApplyAnswer(lands, s, sent, resp, sidecars); Open(t.disk) == t
  {
    hide PushedFrom, RefusedFrom, RecordFrom, ClearFrom;
    var x0 := Progress(s, {}, map[], [], false, false);
    PushedMarked(lands, sent, resp.pushed, 0, x0);
    var x1 := PushedFrom(lands, sent, resp.pushed, 0, x0);
    RefusedMarked(lands, sent, resp.conflicts, 0, x1);
    var x2 := RefusedFrom(lands, sent, resp.conflicts, 0, x1);
    RecordMarked(lands, sidecars, 0, x2);
    var x3 := RecordFrom(lands, sidecars, 0, x2);
    ClearMarked(lands, x3.order, 0, x3);
    SavedMarked(lands, Answered(lands, s, sent, resp, sidecars));
  }

  lemma SavedMarked(lands: Faults, x: Progress)
    requires NoFaults(lands) && Marked(x)
    ensures var t := SaveProgress(lands, x); Open(t.disk) == t
  {
  }
}

/** What a pull keeps, whatever fails and whatever the user edits meanwhile. */
module PullSafety {
  import opened Basics
  import opened Pages
  import opened Contract
  import opened Hub
  import opened Pull

  // ---- No user edit is overwritten ----

  /** A version of page `p` with the canonical form of `b` is in the server's history. */
  ghost predicate InHistory(v: Server, p: Path, b: Bytes) {
    exists sha :: VersionHolds(v, sha, p, b)
  }

  ghost predicate VersionHolds(v: Server, sha: Sha, p: Path, b: Bytes) {
    IssuedFor(v, sha, p) && Intact(v.versions[sha].content, HashOf(b))
  }

  /** The canonical form of `b` was pushed, but the transport garbled it: the history has what became of it. */
  ghost predicate GarbledIn(v: Server, p: Path, b: Bytes) {
    exists sha :: VersionGarbles(v, sha, p, b)
  }

  ghost predicate VersionGarbles(v: Server, sha: Sha, p: Path, b: Bytes) {
    IssuedFor(v, sha, p) && Garbled(v.versions[sha].content, HashOf(b))
  }

  /** The facts pull acts on were true when it read them. */
  ghost predicate TrueFacts(v: Server, e: Entry) {
    e.facts.base.BaseValid? ==> TrueRecord(v, e.path, BaseRecord(e.facts.base.sha, e.facts.base.hash))
  }

  /** From the working files `now`, as the user left them, one step of pull goes to `then`. */
  ghost predicate KeepsEdits(v: Server, e: Entry, now: map<Path, Bytes>, after: map<Path, Bytes>) {
    forall p | p in now :: p in after && (after[p] == now[p] || InHistory(v, p, now[p]) || GarbledIn(v, p, now[p]))
  }

  lemma ApplyKeepsEdits(v: Server, lands: Faults, edits: Edits, i: nat, e: Entry, r: Run)
    requires TrueFacts(v, e)
    ensures var acted := !r.stopped && Needed(e.state) && e.page.Some?;
      var now := if acted then edits(i, r.store.disk.files) else r.store.disk.files;
      KeepsEdits(v, e, now, ApplyEntry(lands, edits, i, e, r).store.disk.files)
  {
    if !r.stopped && Needed(e.state) && e.page.Some? && e.state.Incoming? && e.facts.base.BaseValid? {
      var now := edits(i, r.store.disk.files);
      if e.path in now && HashOf(now[e.path]) == e.facts.base.hash {
        assert VersionHolds(v, e.facts.base.sha, e.path, now[e.path])
            || VersionGarbles(v, e.facts.base.sha, e.path, now[e.path]);
      }
    }
  }

  // ---- Bases stay true ----

  ghost predicate HonestPage(v: Server, p: Path, page: Page) {
    IssuedFor(v, page.sha, p) && page.content == Sanitize(v.versions[page.sha].content)
  }

  ghost predicate HonestEntry(v: Server, e: Entry) {
    e.page.Some? ==> HonestPage(v, e.path, e.page.value)
  }

  ghost predicate HonestEntries(v: Server, es: seq<Entry>) {
    forall k | 0 <= k < |es| :: HonestEntry(v, es[k])
  }

  /** A page delivered without a sha is the one the listing named. */
  ghost predicate HonestDelivery(v: Server, listing: map<Path, Sha>, delivered: Delivery) {
    forall p | p in delivered ::
      Faithful(v, p, if delivered[p].1 == NoSha && p in listing then listing[p] else delivered[p].1, delivered[p].0)
  }

  lemma EntriesAreHonest(v: Server, s: Store, listing: map<Path, Sha>, delivered: Delivery, paths: seq<Path>)
    requires HonestDelivery(v, listing, delivered)
    ensures HonestEntries(v, Entries(s, listing, delivered, paths))
  {
  }

  ghost predicate HonestRun(v: Server, r: Run) {
    && TrueStore(v, r.store) && Shaped(r)
    && HonestEntries(v, r.writes) && HonestEntries(v, r.adopts) && HonestEntries(v, r.sidecars)
  }

  /** Working files say nothing about bases, index files or sidecars. */
  lemma FilesAreFree(v: Server, s: Store, files: map<Path, Bytes>, writes: nat)
    requires TrueStore(v, s)
    ensures TrueStore(v, s.(disk := s.disk.(files := files, writes := writes)))
  {
    hide TrueBases, IssuedShas, TrueSidecars;
  }

  lemma HonestSnoc(v: Server, es: seq<Entry>, e: Entry)
    requires HonestEntries(v, es) && HonestEntry(v, e)
    ensures HonestEntries(v, es + [e])
  {
    hide HonestEntry;
  }

  lemma OverwriteKeeps(v: Server, lands: Faults, e: Entry, r: Run)
    requires HonestRun(v, r) && HonestEntry(v, e) && e.page.Some?
    ensures HonestRun(v, Overwrite(lands, e, r))
  {
    var s := WriteFile(lands, r.store, e.path, e.page.value.content);
    FilesAreFree(v, r.store, s.disk.files, s.disk.writes);
    HonestSnoc(v, r.writes, e);
    hide TrueStore, HonestEntries;
  }

  lemma DecideKeeps(v: Server, e: Entry, r: Run)
    requires HonestRun(v, r) && HonestEntry(v, e) && e.page.Some?
    ensures HonestRun(v, Decide(e, r))
  {
    HonestSnoc(v, r.adopts, e);
    HonestSnoc(v, r.sidecars, e);
    hide TrueStore, HonestEntries;
  }

  lemma ApplyEntryKeeps(v: Server, lands: Faults, edits: Edits, i: nat, e: Entry, r: Run)
    requires HonestRun(v, r) && HonestEntry(v, e)
    ensures HonestRun(v, ApplyEntry(lands, edits, i, e, r))
  {
    if !r.stopped && Needed(e.state) && e.page.Some? {
      var now := Edited(edits, i, r);
      FilesAreFree(v, r.store, now.store.disk.files, r.store.disk.writes);
      assert HonestRun(v, now);
      OverwriteKeeps(v, lands, e, now);
      DecideKeeps(v, e, now);
      hide Edited, Overwrite, Decide, HonestRun, HonestEntry;
    }
  }

  lemma {:induction false} ApplyKeeps(v: Server, lands: Faults, edits: Edits, es: seq<Entry>, i: nat, r: Run)
    requires i <= |es| && HonestRun(v, r) && HonestEntries(v, es)
    ensures HonestRun(v, ApplyFrom(lands, edits, es, i, r))
    decreases |es| - i
  {
    if i < |es| {
      ApplyEntryKeeps(v, lands, edits, i, es[i], r);
      ApplyKeeps(v, lands, edits, es, i + 1, ApplyEntry(lands, edits, i, es[i], r));
    }
  }

  lemma RecordBaseKeeps(v: Server, lands: Faults, e: Entry, x: Dirty)
    requires TrueStore(v, x.store) && e.page.Some? && HonestEntry(v, e)
    ensures TrueStore(v, RecordBase(lands, e, x).store)
  {
    PutBaseKeeps(lands, v, x.store, e.path, e.page.value.content, e.page.value.sha);
    hide TrueBases, TrueSidecars, PutBase;
  }

  lemma {:induction false} RecordBasesKeep(v: Server, lands: Faults, es: seq<Entry>, i: nat, x: Dirty)
    requires i <= |es| && (forall k | 0 <= k < |es| :: es[k].page.Some?)
    requires TrueStore(v, x.store) && HonestEntries(v, es)
    ensures TrueStore(v, RecordBases(lands, es, i, x).store)
    decreases |es| - i
  {
    if i < |es| {
      RecordBaseKeeps(v, lands, es[i], x);
      RecordBasesKeep(v, lands, es, i + 1, RecordBase(lands, es[i], x));
    }
  }

  lemma {:induction false} ClearAllKeeps(v: Server, lands: Faults, es: seq<Entry>, i: nat, x: Dirty)
    requires i <= |es| && TrueStore(v, x.store)
    ensures TrueStore(v, ClearAll(lands, es, i, x).store)
    decreases |es| - i
  {
    if i < |es| {
      ClearConflictKeeps(lands, v, x.store, es[i].path);
      ClearAllKeeps(v, lands, es, i + 1, ClearStored(lands, es[i], x));
    }
  }

  lemma {:induction false} RecordSidecarsKeep(v: Server, lands: Faults, es: seq<Entry>, i: nat, x: Dirty)
    requires i <= |es| && (forall k | 0 <= k < |es| :: es[k].state.Conflict? && es[k].page.Some?)
    requires TrueStore(v, x.store) && HonestEntries(v, es)
    ensures TrueStore(v, RecordSidecars(lands, es, i, x).store)
    decreases |es| - i
  {
    if i < |es| {
      PutConflictKeeps(lands, v, x.store, es[i].path, WantedRecord(es[i]), es[i].page.value.content);
      RecordSidecarsKeep(v, lands, es, i + 1, RecordSidecar(lands, es[i], x));
    }
  }

  lemma SaveDirtyKeeps(v: Server, lands: Faults, x: Dirty, head: Sha)
    requires TrueStore(v, x.store)
    ensures TrueStore(v, SaveDirty(lands, x, head))
  {
    var s1 := if x.bases then SaveBases(lands, x.store) else x.store;
    SavesKeep(lands, v, x.store);
    var s2 := if x.conflicts then SaveConflicts(lands, s1) else s1;
    SavesKeep(lands, v, s1);
    var s3 := s2.(state := s2.state.(lastPull := head));
    assert TrueStore(v, s3);
    SavesKeep(lands, v, s3);
  }

  lemma FinishKeeps(v: Server, lands: Faults, r: Run, head: Sha)
    requires HonestRun(v, r)
    ensures TrueStore(v, Finish(lands, r, head))
  {
    var stored := r.writes + r.adopts;
    var x0 := Dirty(r.store, false, false, false);
    RecordBasesKeep(v, lands, stored, 0, x0);
    var x1 := RecordBases(lands, stored, 0, x0);
    ClearAllKeeps(v, lands, stored, 0, x1);
    RecordSidecarsKeep(v, lands, r.sidecars, 0, ClearAll(lands, stored, 0, x1));
    SaveDirtyKeeps(v, lands, Stored(lands, r), head);
  }

  /** Whatever subset of a pull's writes reaches the disk and whatever is edited meanwhile, every recorded base is
      true. */
  lemma PullKeepsBasesTrue(v: Server, lands: Faults, edits: Edits, s: Store, listing: map<Path, Sha>,
                           delivered: Delivery, paths: seq<Path>, head: Sha)
    requires TrueStore(v, s) && HonestDelivery(v, listing, delivered)
    ensures TrueStore(v, PullEntries(lands, edits, Entries(s, listing, delivered, paths), head, s))
  {
    var es := Entries(s, listing, delivered, paths);
    EntriesAreHonest(v, s, listing, delivered, paths);
    ApplyKeeps(v, lands, edits, es, 0, Started(s));
    FinishKeeps(v, lands, ApplyFrom(lands, edits, es, 0, Started(s)), head);
  }

  // ---- Finish leaves the files alone ----

  lemma {:induction false} RecordBasesLeave(lands: Faults, es: seq<Entry>, i: nat, x: Dirty)
    requires i <= |es| && forall k | 0 <= k < |es| :: es[k].page.Some?
    ensures SameTree(x.store, RecordBases(lands, es, i, x).store)
    decreases |es| - i
  {
    hide PutBase;
    if i < |es| {
      StoreWritesLeaveTree(lands, x.store, es[i].path, es[i].page.value.content, es[i].page.value.sha,
                           ConflictRecord(NoSha, NoSha, BothAdded, false));
      RecordBasesLeave(lands, es, i + 1, RecordBase(lands, es[i], x));
    }
  }

  lemma {:induction false} ClearAllLeaves(lands: Faults, es: seq<Entry>, i: nat, x: Dirty)
    requires i <= |es|
    ensures SameTree(x.store, ClearAll(lands, es, i, x).store)
    decreases |es| - i
  {
    hide ClearConflict;
    if i < |es| {
      StoreWritesLeaveTree(lands, x.store, es[i].path, EMPTY, NoSha, ConflictRecord(NoSha, NoSha, BothAdded, false));
      ClearAllLeaves(lands, es, i + 1, ClearStored(lands, es[i], x));
    }
  }

  lemma {:induction false} RecordSidecarsLeave(lands: Faults, es: seq<Entry>, i: nat, x: Dirty)
    requires i <= |es| && forall k | 0 <= k < |es| :: es[k].state.Conflict? && es[k].page.Some?
    ensures SameTree(x.store, RecordSidecars(lands, es, i, x).store)
    decreases |es| - i
  {
    hide PutConflict;
    if i < |es| {
      StoreWritesLeaveTree(lands, x.store, es[i].path, es[i].page.value.content, NoSha, WantedRecord(es[i]));
      RecordSidecarsLeave(lands, es, i + 1, RecordSidecar(lands, es[i], x));
    }
  }

  lemma FinishLeavesFiles(lands: Faults, r: Run, head: Sha)
    requires Shaped(r)
    ensures SameTree(r.store, Finish(lands, r, head))
  {
    hide RecordBases, ClearAll, RecordSidecars, SaveBases, SaveConflicts, SaveState;
    var stored := r.writes + r.adopts;
    var x0 := Dirty(r.store, false, false, false);
    RecordBasesLeave(lands, stored, 0, x0);
    var x1 := RecordBases(lands, stored, 0, x0);
    ClearAllLeaves(lands, stored, 0, x1);
    RecordSidecarsLeave(lands, r.sidecars, 0, ClearAll(lands, stored, 0, x1));
    var x := Stored(lands, r);
    SavesLeaveTree(lands, x.store);
    var s1 := if x.bases then SaveBases(lands, x.store) else x.store;
    SavesLeaveTree(lands, s1);
    var s2 := if x.conflicts then SaveConflicts(lands, s1) else s1;
    SavesLeaveTree(lands, s2.(state := s2.state.(lastPull := head)));
  }

  /** When the base of a written page cannot be stored, page_shas moves all the same: the page is then unverified
      until a repair, and never taken for a page the user modified. */
  lemma FailedBaseIsUnverified(lands: Faults, e: Entry, x: Dirty)
    requires e.page.Some? && e.page.value.sha != NoSha && !PutBaseOk(lands, x.store, e.page.value.sha)
    requires e.path in x.store.bases ==> x.store.bases[e.path].sha != e.page.value.sha
    ensures BaseOf(RecordBase(lands, e, x).store, e.path) == BaseStale(e.page.value.sha)
  {
    hide HashOf;
  }
}

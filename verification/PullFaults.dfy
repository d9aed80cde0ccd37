/** What a pull records and leaves when any of its writes may fail. */
module PullFaults {
  import opened Basics
  import opened Pages
  import opened Contract
  import opened Hub
  import opened Pull
  import PullTwice

  /** The file is, up to its canonical form, the version that was delivered for it. */
  ghost predicate InPlace(e: Entry, files: map<Path, Bytes>) {
    e.page.Some? && e.path in files && HashOf(files[e.path]) == HashOf(e.page.value.content)
  }

  // ---- One entry ----

  /** The entry's version reached the disk, and is remembered. */
  ghost predicate Wrote(lands: Faults, e: Entry, r: Run, q: Run) {
    var d := r.store.disk;
    && lands(d.writes) && e.page.Some?
    && q == r.(writes := r.writes + [e],
               store := r.store.(disk := Tick(d).(files := d.files[e.path := e.page.value.content])))
  }

  /** The write failed: the files are as they were, nothing is remembered, and the apply is over. */
  ghost predicate GaveUp(lands: Faults, r: Run, q: Run) {
    !lands(r.store.disk.writes) && q == r.(store := r.store.(disk := Tick(r.store.disk)), stopped := true)
  }

  /** What one step of pull can come to, from the files as the user left them: it leaves the page, writes it, fails to
      write it, adopts a file that is the delivered version, or sets out to record a conflict with one that is not. */
  lemma StepOutcomes(lands: Faults, edits: Edits, i: nat, e: Entry, r: Run)
    ensures var q := ApplyEntry(lands, edits, i, e, r); var s := Edited(edits, i, r);
      || q == r
      || q == s
      || Wrote(lands, e, s, q)
      || GaveUp(lands, s, q)
      || (InPlace(e, s.store.disk.files) && q == s.(adopts := s.adopts + [e]))
      || (!InPlace(e, s.store.disk.files) && q == s.(sidecars := s.sidecars + [e]))
  {
    hide HashOf, SidecarCurrent, Edited;
  }

  lemma {:induction false} StoppedRunIsOver(lands: Faults, edits: Edits, es: seq<Entry>, i: nat, r: Run)
    requires i <= |es| && r.stopped
    ensures ApplyFrom(lands, edits, es, i, r) == r
    decreases |es| - i
  {
    if i < |es| {
      StoppedRunIsOver(lands, edits, es, i + 1, r);
    }
  }

  /** A failed write is the last thing an apply does: whatever entries follow and whatever the user would have saved
      meanwhile, no later file is written and no later page gets a base, a page_shas value or a sidecar. */
  lemma FailedWriteIsTheLast(lands: Faults, edits: Edits, es: seq<Entry>, i: nat, r: Run)
    requires i < |es| && !lands(r.store.disk.writes)
    requires ApplyEntry(lands, edits, i, es[i], r).store.disk.writes != r.store.disk.writes
    ensures GaveUp(lands, Edited(edits, i, r), ApplyFrom(lands, edits, es, i, r))
  {
    StepOutcomes(lands, edits, i, es[i], r);
    var q := ApplyEntry(lands, edits, i, es[i], r);
    StoppedRunIsOver(lands, edits, es, i + 1, q);
    hide ApplyEntry, HashOf;
  }

  // ---- The whole apply ----

  /** What a run remembers as stored are the pull's own entries, each in place. */
  ghost predicate AllInPlace(s: Store, listing: map<Path, Sha>, delivered: Delivery, es: seq<Entry>,
                             files: map<Path, Bytes>) {
    forall k | 0 <= k < |es| :: es[k] == EntryOf(s, listing, delivered, es[k].path) && InPlace(es[k], files)
  }

  lemma InPlaceSnoc(s: Store, listing: map<Path, Sha>, delivered: Delivery, es: seq<Entry>, e: Entry,
                    files: map<Path, Bytes>)
    requires AllInPlace(s, listing, delivered, es, files)
    requires e == EntryOf(s, listing, delivered, e.path) && InPlace(e, files)
    ensures AllInPlace(s, listing, delivered, es + [e], files)
  {
    hide InPlace, EntryOf;
  }

  lemma InPlaceWritten(s: Store, listing: map<Path, Sha>, delivered: Delivery, es: seq<Entry>, e: Entry,
                       files: map<Path, Bytes>)
    requires AllInPlace(s, listing, delivered, es, files)
    requires e == EntryOf(s, listing, delivered, e.path) && e.page.Some?
    ensures AllInPlace(s, listing, delivered, es, files[e.path := e.page.value.content])
  {
    hide HashOf, EntryOf;
  }

  ghost predicate Landed(s: Store, listing: map<Path, Sha>, delivered: Delivery, r: Run) {
    && AllInPlace(s, listing, delivered, r.writes, r.store.disk.files)
    && AllInPlace(s, listing, delivered, r.adopts, r.store.disk.files)
  }

  lemma StepLands(lands: Faults, i: nat, s: Store, listing: map<Path, Sha>, delivered: Delivery, p: Path, r: Run)
    requires Landed(s, listing, delivered, r)
    ensures Landed(s, listing, delivered, ApplyEntry(lands, NoEdits(), i, EntryOf(s, listing, delivered, p), r))
  {
    var e := EntryOf(s, listing, delivered, p);
    assert Edited(NoEdits(), i, r) == r;
    StepOutcomes(lands, NoEdits(), i, e, r);
    var files := r.store.disk.files;
    if e.page.Some? {
      InPlaceWritten(s, listing, delivered, r.writes, e, files);
      InPlaceWritten(s, listing, delivered, r.adopts, e, files);
      InPlaceSnoc(s, listing, delivered, r.writes, e, files[p := e.page.value.content]);
      if InPlace(e, files) {
        InPlaceSnoc(s, listing, delivered, r.adopts, e, files);
      }
    }
    hide ApplyEntry, AllInPlace, HashOf, Edited, Gather, FactsState;
  }

  lemma {:induction false} ApplyLands(lands: Faults, s: Store, listing: map<Path, Sha>, delivered: Delivery,
                                      paths: seq<Path>, i: nat, r: Run)
    requires i <= |paths| && Landed(s, listing, delivered, r)
    ensures Landed(s, listing, delivered,
                   ApplyFrom(lands, NoEdits(), Entries(s, listing, delivered, paths), i, r))
    decreases |paths| - i
  {
    hide Landed, ApplyEntry, EntryOf;
    if i < |paths| {
      StepLands(lands, i, s, listing, delivered, paths[i], r);
      ApplyLands(lands, s, listing, delivered, paths, i + 1,
                 ApplyEntry(lands, NoEdits(), i, EntryOf(s, listing, delivered, paths[i]), r));
    }
  }

  /** A path that is in none of the lists. */
  ghost predicate NotIn(es: seq<Entry>, p: Path) {
    forall k | 0 <= k < |es| :: es[k].path != p
  }

  /** A run has neither touched nor remembered page `p`. */
  ghost predicate Untouched(s: Store, r: Run, p: Path) {
    SlotOf(r.store, p) == SlotOf(s, p) && NotIn(r.writes, p) && NotIn(r.adopts, p) && NotIn(r.sidecars, p)
  }

  lemma StepLeaves(lands: Faults, i: nat, s: Store, e: Entry, r: Run, p: Path)
    requires Untouched(s, r, p) && (e.path == p ==> e.page.None?)
    ensures Untouched(s, ApplyEntry(lands, NoEdits(), i, e, r), p)
  {
    assert Edited(NoEdits(), i, r) == r;
    if e.path != p {
      StepOutcomes(lands, NoEdits(), i, e, r);
      hide ApplyEntry, HashOf, Edited;
    }
  }

  lemma {:induction false} ApplyLeaves(lands: Faults, s: Store, es: seq<Entry>, i: nat, r: Run, p: Path)
    requires i <= |es| && Untouched(s, r, p)
    requires forall k | 0 <= k < |es| && es[k].path == p :: es[k].page.None?
    ensures Untouched(s, ApplyFrom(lands, NoEdits(), es, i, r), p)
    decreases |es| - i
  {
    hide Untouched, ApplyEntry;
    if i < |es| {
      StepLeaves(lands, i, s, es[i], r, p);
      ApplyLeaves(lands, s, es, i + 1, ApplyEntry(lands, NoEdits(), i, es[i], r), p);
    }
  }

  // ---- The finish ----

  /** From `t` to `u` page `p` keeps its file, its base and its page_shas value. */
  ghost predicate SameBases(t: Slot, u: Slot) {
    u.file == t.file && u.base == t.base && u.baseFile == t.baseFile && u.sha == t.sha
  }

  lemma {:induction false} RecordBasesOnly(lands: Faults, es: seq<Entry>, i: nat, x: Dirty, p: Path)
    requires i <= |es| && NotIn(es, p) && forall k | 0 <= k < |es| :: es[k].page.Some?
    ensures SlotOf(RecordBases(lands, es, i, x).store, p) == SlotOf(x.store, p)
    decreases |es| - i
  {
    if i < |es| {
      var y := RecordBase(lands, es[i], x);
      assert SlotOf(y.store, p) == SlotOf(x.store, p);
      hide RecordBase, SlotOf;
      RecordBasesOnly(lands, es, i + 1, y, p);
    }
  }

  lemma {:induction false} ClearAllOnly(lands: Faults, es: seq<Entry>, i: nat, x: Dirty, p: Path)
    requires i <= |es|
    ensures var t, u := SlotOf(x.store, p), SlotOf(ClearAll(lands, es, i, x).store, p);
      SameBases(t, u) && (NotIn(es, p) ==> u == t)
    decreases |es| - i
  {
    if i < |es| {
      var y := ClearStored(lands, es[i], x);
      assert SameBases(SlotOf(x.store, p), SlotOf(y.store, p));
      assert es[i].path != p ==> SlotOf(y.store, p) == SlotOf(x.store, p);
      hide ClearStored, SlotOf;
      ClearAllOnly(lands, es, i + 1, y, p);
    }
  }

  lemma {:induction false} RecordSidecarsOnly(lands: Faults, es: seq<Entry>, i: nat, x: Dirty, p: Path)
    requires i <= |es| && forall k | 0 <= k < |es| :: es[k].state.Conflict? && es[k].page.Some?
    ensures var t, u := SlotOf(x.store, p), SlotOf(RecordSidecars(lands, es, i, x).store, p);
      SameBases(t, u) && (NotIn(es, p) ==> u == t)
    decreases |es| - i
  {
    if i < |es| {
      var y := RecordSidecar(lands, es[i], x);
      assert SameBases(SlotOf(x.store, p), SlotOf(y.store, p));
      assert es[i].path != p ==> SlotOf(y.store, p) == SlotOf(x.store, p);
      hide RecordSidecar, SlotOf;
      RecordSidecarsOnly(lands, es, i + 1, y, p);
    }
  }

  /** From `t` to `u` page `p` may have got the entry's version as its base and its sha as page_shas value. */
  ghost predicate MayHaveBased(e: Entry, t: Slot, u: Slot) {
    && u.file == t.file && u.sidecar == t.sidecar && u.text == t.text
    && ((u.base == t.base && u.baseFile == t.baseFile)
        || (e.page.Some? && u.base == Some(BaseRecord(e.page.value.sha, HashOf(e.page.value.content)))
            && u.baseFile == Some(e.page.value.content)))
    && (u.sha == t.sha || (e.page.Some? && u.sha == e.page.value.sha))
  }

  lemma {:induction false} RecordBasesMay(lands: Faults, es: seq<Entry>, i: nat, x: Dirty, e: Entry)
    requires i <= |es| && forall k | 0 <= k < |es| :: es[k].page.Some? && (es[k].path == e.path ==> es[k] == e)
    ensures MayHaveBased(e, SlotOf(x.store, e.path), SlotOf(RecordBases(lands, es, i, x).store, e.path))
    decreases |es| - i
  {
    hide HashOf;
    if i < |es| {
      var y := RecordBase(lands, es[i], x);
      assert MayHaveBased(e, SlotOf(x.store, e.path), SlotOf(y.store, e.path));
      hide RecordBase, SlotOf;
      RecordBasesMay(lands, es, i + 1, y, e);
    }
  }

  /** What a finish does about page `p`, of which it knows at most the entry `e`. */
  lemma FinishOnly(lands: Faults, r: Run, head: Sha, e: Entry)
    requires Shaped(r)
    requires forall k | 0 <= k < |r.writes| :: r.writes[k].path == e.path ==> r.writes[k] == e
    requires forall k | 0 <= k < |r.adopts| :: r.adopts[k].path == e.path ==> r.adopts[k] == e
    ensures var t, u := SlotOf(r.store, e.path), SlotOf(Finish(lands, r, head), e.path);
      && MayHaveBased(e, t, u.(sidecar := t.sidecar, text := t.text))
      && (NotIn(r.writes, e.path) && NotIn(r.adopts, e.path) ==> SameBases(t, u))
      && (NotIn(r.writes, e.path) && NotIn(r.adopts, e.path) && NotIn(r.sidecars, e.path) ==> u == t)
  {
    var stored := r.writes + r.adopts;
    var x0 := Dirty(r.store, false, false, false);
    var x1 := RecordBases(lands, stored, 0, x0);
    RecordBasesMay(lands, stored, 0, x0, e);
    if NotIn(r.writes, e.path) && NotIn(r.adopts, e.path) {
      RecordBasesOnly(lands, stored, 0, x0, e.path);
    }
    ClearAllOnly(lands, stored, 0, x1, e.path);
    RecordSidecarsOnly(lands, r.sidecars, 0, ClearAll(lands, stored, 0, x1), e.path);
    PullTwice.SaveDirtySlot(lands, Stored(lands, r), head, e.path);
    hide RecordBases, ClearAll, RecordSidecars, SaveDirty, SlotOf, HashOf;
  }

  // ---- The whole pull ----

  /** Whichever writes fail: when a pull leaves page `p` with another base or another page_shas value than before, the
      page was delivered, its file is the delivered version, and base and value are those of that version. A page
      whose file could not be written keeps both, so that its old text is never taken for an edit of the new one. */
  lemma OnlyLandedIsRecorded(lands: Faults, s: Store, listing: map<Path, Sha>, delivered: Delivery, paths: seq<Path>,
                             head: Sha, p: Path)
    ensures var e := EntryOf(s, listing, delivered, p); var t := SlotOf(s, p);
      var u := SlotOf(PullEntries(lands, NoEdits(), Entries(s, listing, delivered, paths), head, s), p);
      u.base != t.base || u.baseFile != t.baseFile || u.sha != t.sha ==>
        && e.page.Some? && u.file.Some? && HashOf(u.file.value) == HashOf(e.page.value.content)
        && (u.base == t.base || u.base == Some(BaseRecord(e.page.value.sha, HashOf(e.page.value.content))))
        && (u.sha == t.sha || u.sha == e.page.value.sha)
  {
    var es := Entries(s, listing, delivered, paths);
    var e := EntryOf(s, listing, delivered, p);
    var r := ApplyFrom(lands, NoEdits(), es, 0, Started(s));
    ApplyShapes(lands, NoEdits(), es, 0, Started(s));
    ApplyLands(lands, s, listing, delivered, paths, 0, Started(s));
    LandedMeans(s, listing, delivered, r, p);
    FinishOnly(lands, r, head, e);
    ApplyLeavesBases(lands, NoEdits(), es, 0, Started(s), p);
    hide ApplyFrom, Entries, EntryOf, Finish, HashOf, AllInPlace;
  }

  lemma LandedMeans(s: Store, listing: map<Path, Sha>, delivered: Delivery, r: Run, p: Path)
    requires Landed(s, listing, delivered, r)
    ensures var e := EntryOf(s, listing, delivered, p);
      && (forall k | 0 <= k < |r.writes| :: r.writes[k].path == p ==> r.writes[k] == e)
      && (forall k | 0 <= k < |r.adopts| :: r.adopts[k].path == p ==> r.adopts[k] == e)
      && ((NotIn(r.writes, p) && NotIn(r.adopts, p)) || InPlace(e, r.store.disk.files))
  {
    hide EntryOf, InPlace;
  }

  /** Applying entries changes no base. */
  lemma {:induction false} ApplyLeavesBases(lands: Faults, edits: Edits, es: seq<Entry>, i: nat, r: Run, p: Path)
    requires i <= |es|
    ensures var t, u := SlotOf(r.store, p), SlotOf(ApplyFrom(lands, edits, es, i, r).store, p); u == t.(file := u.file)
    decreases |es| - i
  {
    if i < |es| {
      StepOutcomes(lands, edits, i, es[i], r);
      var q := ApplyEntry(lands, edits, i, es[i], r);
      assert SlotOf(q.store, p) == SlotOf(r.store, p).(file := SlotOf(q.store, p).file) by {
        hide ApplyEntry;
      }
      hide ApplyEntry, SlotOf;
      ApplyLeavesBases(lands, edits, es, i + 1, q, p);
    }
  }

  /** A page for which there is nothing to do, or nothing was delivered, is left exactly as it is. */
  lemma UnneededIsUntouched(lands: Faults, s: Store, listing: map<Path, Sha>, delivered: Delivery, paths: seq<Path>,
                            head: Sha, p: Path)
    requires EntryOf(s, listing, delivered, p).page.None?
    ensures SlotOf(PullEntries(lands, NoEdits(), Entries(s, listing, delivered, paths), head, s), p) == SlotOf(s, p)
  {
    var es := Entries(s, listing, delivered, paths);
    var r := ApplyFrom(lands, NoEdits(), es, 0, Started(s));
    ApplyShapes(lands, NoEdits(), es, 0, Started(s));
    assert forall k | 0 <= k < |es| && es[k].path == p :: es[k] == EntryOf(s, listing, delivered, p);
    ApplyLeaves(lands, s, es, 0, Started(s), p);
    FinishOnly(lands, r, head, EntryOf(s, listing, delivered, p));
    hide ApplyFrom, Entries, EntryOf, Finish, SlotOf, HashOf;
  }

  /** A page is left alone, whatever is delivered and whichever writes fail, when the user deleted it - it does not come
      back -, when its file is not a valid page, when the server does not list it, and when the listing shows it at its
      valid base with no conflict recorded. */
  lemma PullLeavesAlone(lands: Faults, s: Store, listing: map<Path, Sha>, delivered: Delivery, paths: seq<Path>,
                        head: Sha, p: Path)
    requires var sha := ShaAt(s.state.shas, p);
      || (p !in s.disk.files && sha != NoSha)
      || (p in s.disk.files && !IsPageAt(p, s.disk.files[p]))
      || p !in listing
      || (p in s.disk.files && sha == listing[p] != NoSha && p in s.bases && s.bases[p].sha == sha
          && p in s.disk.baseFiles && p !in s.conflicts)
    ensures SlotOf(PullEntries(lands, NoEdits(), Entries(s, listing, delivered, paths), head, s), p) == SlotOf(s, p)
  {
    hide HashOf, SlotOf, PullEntries, Entries;
    UnneededIsUntouched(lands, s, listing, delivered, paths, head, p);
  }
}

/** Pulling again, with nothing new on either side, writes nothing at all. */
module PullTwice {
  import opened Basics
  import opened Pages
  import opened Contract
  import opened Hub
  import opened Pull

  // ---- The entries of one page in a list ----

  function Pick(es: seq<Entry>, i: nat, p: Path): (r: seq<Entry>)
    requires i <= |es|
    ensures forall k | 0 <= k < |r| :: r[k] in es && r[k].path == p
    decreases |es| - i
  {
    if i == |es| then [] else (if es[i].path == p then [es[i]] else []) + Pick(es, i + 1, p)
  }

  lemma {:induction false} PickConcat(xs: seq<Entry>, ys: seq<Entry>, i: nat, p: Path)
    requires i <= |xs|
    ensures Pick(xs + ys, i, p) == Pick(xs, i, p) + Pick(ys, 0, p)
    decreases |xs| - i
  {
    if i < |xs| {
      PickConcat(xs, ys, i + 1, p);
    } else {
      PickShift(xs, ys, 0, p);
    }
  }

  lemma {:induction false} PickShift(xs: seq<Entry>, ys: seq<Entry>, i: nat, p: Path)
    requires i <= |ys|
    ensures Pick(xs + ys, |xs| + i, p) == Pick(ys, i, p)
    decreases |ys| - i
  {
    if i < |ys| {
      PickShift(xs, ys, i + 1, p);
    }
  }

  lemma PickSnoc(xs: seq<Entry>, e: Entry, p: Path)
    ensures Pick(xs + [e], 0, p) == Pick(xs, 0, p) + if e.path == p then [e] else []
  {
    PickConcat(xs, [e], 0, p);
    assert Pick([e], 1, p) == [];
  }

  // ---- What apply does to one page ----

  /** The part of a run that concerns page `p`. */
  datatype Part = Part(slot: Slot, writes: seq<Entry>, adopts: seq<Entry>, sidecars: seq<Entry>)

  function PartOf(r: Run, p: Path): Part {
    Part(SlotOf(r.store, p), Pick(r.writes, 0, p), Pick(r.adopts, 0, p), Pick(r.sidecars, 0, p))
  }

  /** `ApplyEntry` on the page's own part. */
  function ApplyPart(e: Entry, t: Part): Part {
    if !Needed(e.state) || e.page.None? then t
    else
      var c := e.page.value.content;
      if e.state.Incoming? then
        if t.slot.file.Some? && e.facts.base.BaseValid? && HashOf(t.slot.file.value) == e.facts.base.hash
        then t.(slot := t.slot.(file := Some(c)), writes := t.writes + [e]) else t
      else if e.state.IncomingNew? then
        if t.slot.file.Some? then t else t.(slot := t.slot.(file := Some(c)), writes := t.writes + [e])
      else if t.slot.file.None? || e.facts.local != LocalValid(HashOf(t.slot.file.value)) then t
      else if HashOf(t.slot.file.value) == HashOf(c) then t.(adopts := t.adopts + [e])
      else if e.state.Conflict? && !SidecarCurrent(e) then t.(sidecars := t.sidecars + [e])
      else t
  }

  lemma OverwritePart(lands: Faults, e: Entry, r: Run, p: Path)
    requires NoFaults(lands) && e.page.Some?
    ensures var q := Overwrite(lands, e, r);
      && q.stopped == r.stopped
      && PartOf(q, p) == if e.path != p then PartOf(r, p)
         else var t := PartOf(r, p); t.(slot := t.slot.(file := Some(e.page.value.content)), writes := t.writes + [e])
  {
    PickSnoc(r.writes, e, p);
    hide Pick;
  }

  lemma ApplyEntryPart(lands: Faults, i: nat, e: Entry, r: Run, p: Path)
    requires NoFaults(lands) && !r.stopped
    ensures var q := ApplyEntry(lands, NoEdits(), i, e, r);
      !q.stopped && PartOf(q, p) == if e.path == p then ApplyPart(e, PartOf(r, p)) else PartOf(r, p)
  {
    assert Edited(NoEdits(), i, r) == r;
    if Needed(e.state) && e.page.Some? {
      PickSnoc(r.adopts, e, p);
      PickSnoc(r.sidecars, e, p);
      OverwritePart(lands, e, r, p);
      hide Pick, Overwrite, HashOf;
    }
  }

  /** Distinct paths: the page's own entry acts once, every other entry leaves the page alone. */
  lemma {:induction false} ApplyFromPart(lands: Faults, es: seq<Entry>, i: nat, r: Run, p: Path)
    requires NoFaults(lands) && !r.stopped && i <= |es| && |Pick(es, i, p)| <= 1
    ensures var q := ApplyFrom(lands, NoEdits(), es, i, r);
      && !q.stopped
      && PartOf(q, p) == if Pick(es, i, p) == [] then PartOf(r, p) else ApplyPart(Pick(es, i, p)[0], PartOf(r, p))
    decreases |es| - i
  {
    if i < |es| {
      ApplyEntryPart(lands, i, es[i], r, p);
      hide PartOf, ApplyPart, ApplyEntry;
      ApplyFromPart(lands, es, i + 1, ApplyEntry(lands, NoEdits(), i, es[i], r), p);
    }
  }

  // ---- What finish does to one page ----

  function RecordedSlot(e: Entry, t: Slot): Slot
    requires e.page.Some?
  {
    t.(base := Some(BaseRecord(e.page.value.sha, HashOf(e.page.value.content))),
       baseFile := Some(e.page.value.content), sha := e.page.value.sha)
  }

  lemma {:induction false} RecordBasesSlot(lands: Faults, es: seq<Entry>, i: nat, x: Dirty, p: Path)
    requires NoFaults(lands) && i <= |es| && |Pick(es, i, p)| <= 1
    requires forall k | 0 <= k < |es| :: es[k].page.Some? && es[k].page.value.sha != NoSha
    ensures SlotOf(RecordBases(lands, es, i, x).store, p)
         == if Pick(es, i, p) == [] then SlotOf(x.store, p) else RecordedSlot(Pick(es, i, p)[0], SlotOf(x.store, p))
    decreases |es| - i
  {
    if i < |es| {
      var y := RecordBase(lands, es[i], x);
      assert SlotOf(y.store, p) == if es[i].path == p then RecordedSlot(es[i], SlotOf(x.store, p))
          else SlotOf(x.store, p);
      hide RecordBase, SlotOf, RecordedSlot;
      RecordBasesSlot(lands, es, i + 1, y, p);
    }
  }

  /** The sidecar of a page goes with its record. */
  function ClearedSlot(t: Slot): Slot {
    t.(sidecar := None, text := if t.sidecar.Some? then None else t.text)
  }

  function NotedSlot(e: Entry, t: Slot): Slot
    requires e.state.Conflict? && e.page.Some?
  {
    var c := e.page.value.content;
    t.(sidecar := Some(WantedRecord(e)), text := if c == EMPTY then None else Some(c))
  }

  lemma {:induction false} ClearAllSlot(lands: Faults, es: seq<Entry>, i: nat, x: Dirty, p: Path)
    requires NoFaults(lands) && i <= |es|
    ensures SlotOf(ClearAll(lands, es, i, x).store, p)
         == if Pick(es, i, p) == [] then SlotOf(x.store, p) else ClearedSlot(SlotOf(x.store, p))
    decreases |es| - i
  {
    if i < |es| {
      var y := ClearStored(lands, es[i], x);
      assert SlotOf(y.store, p) == if es[i].path == p then ClearedSlot(SlotOf(x.store, p)) else SlotOf(x.store, p);
      hide ClearStored, SlotOf;
      ClearAllSlot(lands, es, i + 1, y, p);
    }
  }

  lemma {:induction false} RecordSidecarsSlot(lands: Faults, es: seq<Entry>, i: nat, x: Dirty, p: Path)
    requires NoFaults(lands) && i <= |es| && |Pick(es, i, p)| <= 1
    requires forall k | 0 <= k < |es| :: es[k].state.Conflict? && es[k].page.Some? && es[k].page.value.sha != NoSha
    ensures SlotOf(RecordSidecars(lands, es, i, x).store, p)
         == if Pick(es, i, p) == [] then SlotOf(x.store, p) else NotedSlot(Pick(es, i, p)[0], SlotOf(x.store, p))
    decreases |es| - i
  {
    if i < |es| {
      var y := RecordSidecar(lands, es[i], x);
      assert SlotOf(y.store, p) == if es[i].path == p then NotedSlot(es[i], SlotOf(x.store, p)) else SlotOf(x.store, p);
      hide RecordSidecar, SlotOf, WantedRecord, NotedSlot;
      RecordSidecarsSlot(lands, es, i + 1, y, p);
    }
  }

  /** `Finish` on the page's own part. */
  function FinishPart(t: Part): Slot
    requires forall e | e in t.writes + t.adopts :: e.page.Some?
    requires forall e | e in t.sidecars :: e.state.Conflict? && e.page.Some?
  {
    var stored := t.writes + t.adopts;
    var slot := if stored == [] then t.slot else ClearedSlot(RecordedSlot(stored[0], t.slot));
    if t.sidecars == [] then slot else NotedSlot(t.sidecars[0], slot)
  }

  ghost predicate Delivered(es: seq<Entry>) {
    forall k | 0 <= k < |es| :: es[k].page.Some? && es[k].page.value.sha != NoSha
  }

  lemma SaveDirtySlot(lands: Faults, x: Dirty, head: Sha, p: Path)
    ensures SlotOf(SaveDirty(lands, x, head), p) == SlotOf(x.store, p)
  {
    var s1 := if x.bases then SaveBases(lands, x.store) else x.store;
    var s2 := if x.conflicts then SaveConflicts(lands, s1) else s1;
    var s3 := s2.(state := s2.state.(lastPull := head));
    SavesKeepSlots(lands, x.store, p);
    SavesKeepSlots(lands, s1, p);
    SavesKeepSlots(lands, s3, p);
    assert SlotOf(s3, p) == SlotOf(s2, p);
    hide SlotOf, SaveBases, SaveConflicts, SaveState;
  }

  lemma FinishSlot(lands: Faults, r: Run, head: Sha, p: Path)
    requires NoFaults(lands) && Shaped(r) && Delivered(r.writes) && Delivered(r.adopts) && Delivered(r.sidecars)
    requires |Pick(r.writes, 0, p) + Pick(r.adopts, 0, p)| <= 1 && |Pick(r.sidecars, 0, p)| <= 1
    ensures SlotOf(Finish(lands, r, head), p) == FinishPart(PartOf(r, p))
  {
    var stored := r.writes + r.adopts;
    PickConcat(r.writes, r.adopts, 0, p);
    var x0 := Dirty(r.store, false, false, false);
    RecordBasesSlot(lands, stored, 0, x0, p);
    var x1 := RecordBases(lands, stored, 0, x0);
    ClearAllSlot(lands, stored, 0, x1, p);
    var x2 := ClearAll(lands, stored, 0, x1);
    RecordSidecarsSlot(lands, r.sidecars, 0, x2, p);
    SaveDirtySlot(lands, Stored(lands, r), head, p);
    hide SlotOf, RecordedSlot, WantedRecord, SaveDirty, RecordBases, ClearAll, RecordSidecars;
  }

  // ---- What is on disk afterwards is what is in memory ----

  /** An index copy that is not marked changed is what the disk has. */
  ghost predicate Marked(x: Dirty) {
    && (!x.bases ==> x.store.bases == x.store.disk.bases)
    && (!x.conflicts ==> x.store.conflicts == x.store.disk.conflicts)
    && (!x.state ==> x.store.state == x.store.disk.state)
  }

  lemma {:induction false} RecordBasesMarked(lands: Faults, es: seq<Entry>, i: nat, x: Dirty)
    requires i <= |es| && Marked(x) && forall k | 0 <= k < |es| :: es[k].page.Some?
    ensures Marked(RecordBases(lands, es, i, x))
    decreases |es| - i
  {
    if i < |es| {
      assert Marked(RecordBase(lands, es[i], x));
      RecordBasesMarked(lands, es, i + 1, RecordBase(lands, es[i], x));
    }
  }

  lemma {:induction false} ClearAllMarked(lands: Faults, es: seq<Entry>, i: nat, x: Dirty)
    requires i <= |es| && Marked(x)
    ensures Marked(ClearAll(lands, es, i, x))
    decreases |es| - i
  {
    if i < |es| {
      ClearAllMarked(lands, es, i + 1, ClearStored(lands, es[i], x));
    }
  }

  lemma {:induction false} RecordSidecarsMarked(lands: Faults, es: seq<Entry>, i: nat, x: Dirty)
    requires i <= |es| && Marked(x) && forall k | 0 <= k < |es| :: es[k].state.Conflict? && es[k].page.Some?
    ensures Marked(RecordSidecars(lands, es, i, x))
    decreases |es| - i
  {
    if i < |es| {
      RecordSidecarsMarked(lands, es, i + 1, RecordSidecar(lands, es[i], x));
    }
  }

  lemma FinishSaves(lands: Faults, r: Run, head: Sha)
    requires NoFaults(lands) && Shaped(r) && Open(r.store.disk) == r.store
    ensures var s := Finish(lands, r, head); Open(s.disk) == s && s.state.lastPull == head
  {
    var stored := r.writes + r.adopts;
    var x0 := Dirty(r.store, false, false, false);
    RecordBasesMarked(lands, stored, 0, x0);
    var x1 := RecordBases(lands, stored, 0, x0);
    ClearAllMarked(lands, stored, 0, x1);
    RecordSidecarsMarked(lands, r.sidecars, 0, ClearAll(lands, stored, 0, x1));
    hide RecordBases, ClearAll, RecordSidecars;
  }

  lemma OverwriteTouchesFilesOnly(lands: Faults, e: Entry, r: Run)
    requires Open(r.store.disk) == r.store && e.page.Some?
    ensures var s := Overwrite(lands, e, r).store; Open(s.disk) == s
  {
  }

  lemma EditedTouchesFilesOnly(edits: Edits, i: nat, r: Run)
    requires Open(r.store.disk) == r.store
    ensures var s := Edited(edits, i, r).store; Open(s.disk) == s
  {
  }

  lemma ApplyEntryTouchesFilesOnly(lands: Faults, edits: Edits, i: nat, e: Entry, r: Run)
    requires Open(r.store.disk) == r.store
    ensures var s := ApplyEntry(lands, edits, i, e, r).store; Open(s.disk) == s
  {
    EditedTouchesFilesOnly(edits, i, r);
    if e.page.Some? {
      OverwriteTouchesFilesOnly(lands, e, Edited(edits, i, r));
    }
    hide HashOf, SidecarCurrent, Needed, Overwrite, Edited, Open;
  }

  lemma {:induction false} ApplyTouchesFilesOnly(lands: Faults, edits: Edits, es: seq<Entry>, i: nat, r: Run)
    requires i <= |es| && Open(r.store.disk) == r.store
    ensures var s := ApplyFrom(lands, edits, es, i, r).store; Open(s.disk) == s
    decreases |es| - i
  {
    if i < |es| {
      ApplyEntryTouchesFilesOnly(lands, edits, i, es[i], r);
      hide ApplyEntry, Open;
      ApplyTouchesFilesOnly(lands, edits, es, i + 1, ApplyEntry(lands, edits, i, es[i], r));
    }
  }

  // ---- One page through a whole pull ----

  /** Everything an entry depends on is in its page's slot. */
  function LocalSlot(t: Slot, p: Path): Local {
    if t.file.None? then LocalAbsent
    else if IsPageAt(p, t.file.value) then LocalValid(HashOf(t.file.value))
    else LocalInvalid
  }

  function BaseSlot(t: Slot): Base {
    if t.sha == NoSha then BaseNone
    else if t.base.Some? && t.base.value.sha == t.sha && t.baseFile.Some? then BaseValid(t.sha, t.base.value.hash)
    else BaseStale(t.sha)
  }

  function EntrySlot(v: Server, p: Path, t: Slot): Entry
    requires ServerOk(v)
  {
    var remote := if p in v.head then RemotePresent(v.head[p]) else RemoteAbsent;
    var f := Facts(LocalSlot(t, p), BaseSlot(t), remote, t.sidecar);
    var st := FactsState(f);
    Entry(p, f, st, if Needed(st) && p in v.head
        then Some(Page(Sanitize(v.versions[v.head[p]].content), v.head[p])) else None)
  }

  /** The fetch delivered the current version of every page the server has, as a batch or a single read does, under its
      sha or under none. */
  ghost predicate Complete(v: Server, delivered: Delivery)
    requires ServerOk(v)
  {
    && delivered.Keys == v.head.Keys
    && forall p | p in v.head ::
         (delivered[p].1 == v.head[p] || delivered[p].1 == NoSha) && Faithful(v, p, v.head[p], delivered[p].0)
  }

  lemma EntryIsSlot(v: Server, s: Store, delivered: Delivery, p: Path)
    requires ServerOk(v) && Complete(v, delivered)
    ensures EntryOf(s, v.head, delivered, p) == EntrySlot(v, p, SlotOf(s, p))
  {
    hide HashOf, FactsState;
  }

  lemma {:induction false} PickNone(es: seq<Entry>, i: nat, p: Path)
    requires i <= |es| && forall k | i <= k < |es| :: es[k].path != p
    ensures Pick(es, i, p) == []
    decreases |es| - i
  {
    if i < |es| {
      PickNone(es, i + 1, p);
    }
  }

  lemma {:induction false} PickOne(es: seq<Entry>, i: nat, k: nat, p: Path)
    requires i <= k < |es| && es[k].path == p && forall j | i <= j < |es| && j != k :: es[j].path != p
    ensures Pick(es, i, p) == [es[k]]
    decreases |es| - i
  {
    if i < k {
      PickOne(es, i + 1, k, p);
    } else {
      PickNone(es, i + 1, p);
    }
  }

  /** The entry of a listed page is the only one picked for it. */
  lemma PickEntry(s: Store, listing: map<Path, Sha>, delivered: Delivery, paths: seq<Path>, p: Path)
    requires Distinct(paths)
    ensures Pick(Entries(s, listing, delivered, paths), 0, p)
         == if p in paths then [EntryOf(s, listing, delivered, p)] else []
  {
    var es := Entries(s, listing, delivered, paths);
    if p in paths {
      var k :| 0 <= k < |paths| && paths[k] == p;
      PickOne(es, 0, k, p);
    } else {
      PickNone(es, 0, p);
    }
  }

  ghost predicate AllDelivered(r: Run) {
    Shaped(r) && Delivered(r.writes) && Delivered(r.adopts) && Delivered(r.sidecars)
  }

  lemma {:induction false} ApplyDelivered(lands: Faults, edits: Edits, es: seq<Entry>, i: nat, r: Run)
    requires i <= |es| && AllDelivered(r)
    requires forall k | 0 <= k < |es| :: es[k].page.Some? ==> es[k].page.value.sha != NoSha
    ensures AllDelivered(ApplyFrom(lands, edits, es, i, r))
    decreases |es| - i
  {
    if i < |es| {
      ApplyDelivered(lands, edits, es, i + 1, ApplyEntry(lands, edits, i, es[i], r));
    }
  }

  /** One page through a pull. */
  function PullSlot(v: Server, p: Path, t: Slot): Slot
    requires ServerOk(v)
  {
    FinishPart(ApplyPart(EntrySlot(v, p, t), Part(t, [], [], [])))
  }

  lemma ApplyIsPagewise(v: Server, lands: Faults, s: Store, delivered: Delivery, paths: seq<Path>, p: Path)
    requires ServerOk(v) && NoFaults(lands) && Complete(v, delivered) && Distinct(paths)
    ensures var t := Part(SlotOf(s, p), [], [], []);
      PartOf(ApplyFrom(lands, NoEdits(), Entries(s, v.head, delivered, paths), 0, Started(s)), p)
      == if p in paths then ApplyPart(EntrySlot(v, p, SlotOf(s, p)), t) else t
  {
    PickEntry(s, v.head, delivered, paths, p);
    ApplyFromPart(lands, Entries(s, v.head, delivered, paths), 0, Started(s), p);
    EntryIsSlot(v, s, delivered, p);
    hide Entries, EntryOf, EntrySlot, ApplyFrom, ApplyPart, SlotOf;
  }

  /** A pull treats every listed page by itself. */
  lemma PullIsPagewise(v: Server, lands: Faults, s: Store, delivered: Delivery, paths: seq<Path>, head: Sha, p: Path)
    requires ServerOk(v) && NoFaults(lands) && Complete(v, delivered) && Distinct(paths)
    ensures SlotOf(PullEntries(lands, NoEdits(), Entries(s, v.head, delivered, paths), head, s), p)
         == if p in paths then PullSlot(v, p, SlotOf(s, p)) else SlotOf(s, p)
  {
    hide ApplyFrom, SlotOf, EntrySlot, EntryOf, Finish, Pick, FinishPart, WantedRecord, HashOf, ApplyPart;
    var es := Entries(s, v.head, delivered, paths);
    var r := ApplyFrom(lands, NoEdits(), es, 0, Started(s));
    ApplyShapes(lands, NoEdits(), es, 0, Started(s));
    EntriesDelivered(v, s, delivered, paths);
    ApplyDelivered(lands, NoEdits(), es, 0, Started(s));
    ApplyIsPagewise(v, lands, s, delivered, paths, p);
    AtMostOne(EntrySlot(v, p, SlotOf(s, p)), SlotOf(s, p));
    assert FinishPart(Part(SlotOf(s, p), [], [], [])) == SlotOf(s, p) by { NothingToFinish(SlotOf(s, p)); }
    FinishSlot(lands, r, head, p);
  }

  lemma EntriesDelivered(v: Server, s: Store, delivered: Delivery, paths: seq<Path>)
    requires ServerOk(v) && Complete(v, delivered)
    ensures var es := Entries(s, v.head, delivered, paths);
      forall k | 0 <= k < |es| :: es[k].page.Some? ==> es[k].page.value.sha != NoSha
  {
    hide HashOf, FactsState, SlotOf;
    var es := Entries(s, v.head, delivered, paths);
    forall k | 0 <= k < |es|
      ensures es[k].page.Some? ==> es[k].page.value.sha != NoSha
    {
      EntryIsSlot(v, s, delivered, paths[k]);
    }
  }

  lemma NothingToFinish(t: Slot)
    ensures FinishPart(Part(t, [], [], [])) == t
  {
  }

  lemma AtMostOne(e: Entry, t: Slot)
    ensures var part := ApplyPart(e, Part(t, [], [], []));
      |part.writes + part.adopts| <= 1 && |part.sidecars| <= 1
  {
    hide HashOf, SidecarCurrent;
  }

  // ---- The second pull ----

  /** Pull would leave the page as it is. */
  ghost predicate Quiet(v: Server, p: Path, t: Slot)
    requires ServerOk(v)
  {
    ApplyPart(EntrySlot(v, p, t), Part(t, [], [], [])) == Part(t, [], [], [])
  }

  lemma PulledSlotIsQuiet(v: Server, p: Path, t: Slot)
    requires ServerOk(v)
    ensures Quiet(v, p, PullSlot(v, p, t))
  {
    hide HashOf;
  }

  /** A page that pull wrote or adopted is afterwards unchanged, as long as its content is a valid page. */
  lemma StoredSlotIsUnchanged(v: Server, p: Path, t: Slot)
    requires ServerOk(v)
    requires PullSlot(v, p, t).file.Some? && IsPageAt(p, PullSlot(v, p, t).file.value)
    requires var part := ApplyPart(EntrySlot(v, p, t), Part(t, [], [], [])); part.writes + part.adopts != []
    ensures EntrySlot(v, p, PullSlot(v, p, t)).state == Unchanged
  {
    hide HashOf;
  }

  /** What one pull makes of a page, without its code: a page only the server changed becomes the server's version
      with that version as its base; a conflict or a page on both sides is adopted if the contents agree and
      otherwise only gets a sidecar naming the server's commit and holding its version, unless it has that one; an
      unverified page is adopted if the contents agree; everything else stays exactly as it is. */
  lemma PullOutcome(v: Server, p: Path, t: Slot)
    requires ServerOk(v) && p in v.head
    ensures var st := EntrySlot(v, p, t).state; var u := PullSlot(v, p, t);
      var h := v.head[p]; var c := Sanitize(v.versions[h].content);
      var stored := t.(base := Some(BaseRecord(h, HashOf(c))), baseFile := Some(c), sha := h, sidecar := None,
                       text := if t.sidecar.Some? then None else t.text);
      var wanted := if st.Conflict?
                    then Some(ConflictRecord(h, if st.kind.BothAdded? then NoSha else t.sha, st.kind, c != EMPTY))
                    else None;
      && (st.Incoming? || st.IncomingNew? ==> u == stored.(file := Some(c)))
      && ((st.Conflict? || st.Unverified?) && HashOf(t.file.value) == HashOf(c) ==> u == stored)
      && (st.Conflict? && HashOf(t.file.value) != HashOf(c)
          ==> u == if t.sidecar == wanted then t
                   else t.(sidecar := wanted, text := if c == EMPTY then None else Some(c)))
      && (st.Unverified? && HashOf(t.file.value) != HashOf(c) ==> u == t)
      && (!st.Incoming? && !st.IncomingNew? && !st.Conflict? && !st.Unverified? ==> u == t)
  {
    hide HashOf;
  }

  lemma QuietStep(lands: Faults, i: nat, e: Entry, r: Run)
    requires var t := Part(SlotOf(r.store, e.path), [], [], []); ApplyPart(e, t) == t
    ensures ApplyEntry(lands, NoEdits(), i, e, r) == r
  {
    assert Edited(NoEdits(), i, r) == r;
    hide HashOf, SidecarCurrent;
  }

  lemma {:induction false} QuietApply(v: Server, lands: Faults, delivered: Delivery, paths: seq<Path>, s: Store, i: nat)
    requires ServerOk(v) && Complete(v, delivered) && i <= |paths|
    requires forall k | 0 <= k < |paths| :: Quiet(v, paths[k], SlotOf(s, paths[k]))
    ensures ApplyFrom(lands, NoEdits(), Entries(s, v.head, delivered, paths), i, Started(s)) == Started(s)
    decreases |paths| - i
  {
    if i < |paths| {
      EntryIsSlot(v, s, delivered, paths[i]);
      QuietStep(lands, i, EntryOf(s, v.head, delivered, paths[i]), Started(s));
      QuietApply(v, lands, delivered, paths, s, i + 1);
    }
  }

  /** Nothing to pull: the page is no entry at all. */
  lemma NoEntryIsQuiet(v: Server, s: Store, p: Path)
    requires ServerOk(v) && p !in ViewEntries(s, Some(v.head))
    ensures Quiet(v, p, SlotOf(s, p))
  {
  }

  lemma AfterPullIsQuiet(v: Server, lands: Faults, s: Store, delivered: Delivery, paths: seq<Path>, head: Sha, p: Path)
    requires ServerOk(v) && NoFaults(lands) && Complete(v, delivered)
    requires Distinct(paths) && ViewEntries(s, Some(v.head)) <= set q | q in paths
    ensures Quiet(v, p, SlotOf(PullEntries(lands, NoEdits(), Entries(s, v.head, delivered, paths), head, s), p))
  {
    PullIsPagewise(v, lands, s, delivered, paths, head, p);
    if p in paths {
      PulledSlotIsQuiet(v, p, SlotOf(s, p));
    } else {
      NoEntryIsQuiet(v, s, p);
    }
  }

  /** With the server where it was, no edits and no failed write, a second pull does not write one
      byte: working files, bases, sidecars, index files and even the write counter are what they were. */
  lemma SecondPullWritesNothing(v: Server, lands: Faults, s: Store, delivered: Delivery, paths: seq<Path>,
                                again: seq<Path>, head: Sha)
    requires ServerOk(v) && NoFaults(lands) && Complete(v, delivered) && Open(s.disk) == s
    requires Distinct(paths) && ViewEntries(s, Some(v.head)) <= set q | q in paths
    ensures var s1 := PullEntries(lands, NoEdits(), Entries(s, v.head, delivered, paths), head, s);
      var reopened := Open(s1.disk);
      && reopened == s1
      && PullEntries(lands, NoEdits(), Entries(reopened, v.head, delivered, again), head, reopened) == reopened
  {
    var es := Entries(s, v.head, delivered, paths);
    var s1 := PullEntries(lands, NoEdits(), es, head, s);
    ApplyShapes(lands, NoEdits(), es, 0, Started(s));
    ApplyTouchesFilesOnly(lands, NoEdits(), es, 0, Started(s));
    FinishSaves(lands, ApplyFrom(lands, NoEdits(), es, 0, Started(s)), head);
    forall k | 0 <= k < |again|
      ensures Quiet(v, again[k], SlotOf(s1, again[k]))
    {
      AfterPullIsQuiet(v, lands, s, delivered, paths, head, again[k]);
    }
    QuietApply(v, lands, delivered, again, s1, 0);
    assert Finish(lands, Started(s1), head) == s1 by { NothingToSave(lands, s1, head); }
    hide Entries, ApplyFrom, Finish;
  }

  lemma NothingToSave(lands: Faults, s: Store, head: Sha)
    requires s.state.lastPull == head
    ensures Finish(lands, Started(s), head) == s
  {
    assert Stored(lands, Started(s)) == Dirty(s, false, false, false);
  }
}

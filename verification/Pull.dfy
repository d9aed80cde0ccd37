/** `ctx pull` (internal/syncops/pull.go) after its listing and its fetch: classify, apply, finish. */
module Pull {
  import opened Basics
  import opened Pages
  import opened Contract
  import opened Hub

  /** A server version as pull keeps it: sanitized, under the sha it was delivered with. */
  datatype Page = Page(content: Bytes, sha: Sha)

  /** A classified view entry and what the fetch delivered for it; a page that vanished has none. */
  datatype Entry = Entry(path: Path, facts: Facts, state: PageState, page: Option<Page>)

  predicate Needed(st: PageState) {
    st.Incoming? || st.IncomingNew? || st.Conflict? || st.Unverified?
  }

  /** `pullDeliver`: the listing's sha stands in when the server sent none. */
  function Deliver(r: Remote, v: Version, sha: Sha): Page {
    Page(Sanitize(v.content), if sha == NoSha && r.RemotePresent? then r.sha else sha)
  }

  type Delivery = map<Path, (Bytes, Sha)>

  function EntryOf(s: Store, listing: map<Path, Sha>, delivered: Delivery, p: Path): Entry {
    var f := Gather(s, p, Some(listing));
    var st := FactsState(f);
    Entry(p, f, st,
          if Needed(st) && p in delivered
          then Some(Deliver(f.remote, Version(p, delivered[p].0), delivered[p].1)) else None)
  }

  function Entries(s: Store, listing: map<Path, Sha>, delivered: Delivery, paths: seq<Path>): (es: seq<Entry>)
    ensures |es| == |paths|
  {
    seq(|paths|, i requires 0 <= i < |paths| => EntryOf(s, listing, delivered, paths[i]))
  }

  // ---- Apply ----

  /** What the user saves in the working files right before pull acts on its i-th entry. */
  type Edits = (nat, map<Path, Bytes>) -> map<Path, Bytes>

  function NoEdits(): Edits {
    (i, files) => files
  }

  datatype Run = Run(store: Store, writes: seq<Entry>, adopts: seq<Entry>, sidecars: seq<Entry>, stopped: bool)

  function WantedRecord(e: Entry): ConflictRecord
    requires e.state.Conflict? && e.page.Some?
  {
    ConflictRecord(e.page.value.sha, if e.state.kind.BothAdded? then NoSha else BaseSha(e.facts.base), e.state.kind,
                   e.page.value.content != EMPTY)
  }

  /** The recorded sidecar already says what this conflict would record. */
  predicate SidecarCurrent(e: Entry)
    requires e.state.Conflict? && e.page.Some?
  {
    e.facts.sidecar == Some(WantedRecord(e))
  }

  /** Write the server version over (or into) the working file. */
  function Overwrite(lands: Faults, e: Entry, r: Run): Run
    requires e.page.Some?
  {
    var s := WriteFile(lands, r.store, e.path, e.page.value.content);
    if lands(r.store.disk.writes) then r.(store := s, writes := r.writes + [e]) else r.(store := s, stopped := true)
  }

  function ApplyIncoming(lands: Faults, e: Entry, r: Run): Run
    requires e.page.Some?
  {
    var files := r.store.disk.files;
    if e.path in files && e.facts.base.BaseValid? && HashOf(files[e.path]) == e.facts.base.hash
    then Overwrite(lands, e, r) else r
  }

  function ApplyNew(lands: Faults, e: Entry, r: Run): Run
    requires e.page.Some?
  {
    if e.path in r.store.disk.files then r else Overwrite(lands, e, r)
  }

  /** A conflict or unverified page: adopted, recorded or left, never written. */
  function Decide(e: Entry, r: Run): Run
    requires e.page.Some?
  {
    var files := r.store.disk.files;
    if e.path !in files || e.facts.local != LocalValid(HashOf(files[e.path])) then r
    else if HashOf(files[e.path]) == HashOf(e.page.value.content) then r.(adopts := r.adopts + [e])
    else if e.state.Conflict? && !SidecarCurrent(e) then r.(sidecars := r.sidecars + [e])
    else r
  }

  function Edited(edits: Edits, i: nat, r: Run): Run {
    r.(store := r.store.(disk := r.store.disk.(files := edits(i, r.store.disk.files))))
  }

  function ApplyEntry(lands: Faults, edits: Edits, i: nat, e: Entry, r: Run): Run {
    if r.stopped || !Needed(e.state) || e.page.None? then r
    else
      var r := Edited(edits, i, r);
      if e.state.Incoming? then ApplyIncoming(lands, e, r)
      else if e.state.IncomingNew? then ApplyNew(lands, e, r)
      else Decide(e, r)
  }

  function ApplyFrom(lands: Faults, edits: Edits, es: seq<Entry>, i: nat, r: Run): Run
    requires i <= |es|
    decreases |es| - i
  {
    if i == |es| then r else ApplyFrom(lands, edits, es, i + 1, ApplyEntry(lands, edits, i, es[i], r))
  }

  // ---- Finish ----

  /** The stores, and which index files changed. */
  datatype Dirty = Dirty(store: Store, bases: bool, conflicts: bool, state: bool)

  /** page_shas moves even when the base could not be stored: the page is then unverified, never modified. */
  function RecordBase(lands: Faults, e: Entry, x: Dirty): Dirty
    requires e.page.Some?
  {
    var page := e.page.value;
    var s := PutBase(lands, x.store, e.path, page.content, page.sha);
    var moved := ShaAt(s.state.shas, e.path) != page.sha;
    Dirty(if moved then s.(state := s.state.(shas := s.state.shas[e.path := page.sha])) else s,
          x.bases || PutBaseOk(lands, x.store, page.sha), x.conflicts, x.state || moved)
  }

  function ClearStored(lands: Faults, e: Entry, x: Dirty): Dirty {
    if e.path !in x.store.conflicts then x
    else Dirty(ClearConflict(lands, x.store, e.path), x.bases, x.conflicts || lands(x.store.disk.writes), x.state)
  }

  function RecordSidecar(lands: Faults, e: Entry, x: Dirty): Dirty
    requires e.state.Conflict? && e.page.Some?
  {
    var rec := WantedRecord(e);
    Dirty(PutConflict(lands, x.store, e.path, rec, e.page.value.content), x.bases,
          x.conflicts || PutConflictOk(lands, x.store, rec), x.state)
  }

  function RecordBases(lands: Faults, es: seq<Entry>, i: nat, x: Dirty): Dirty
    requires i <= |es| && forall k | 0 <= k < |es| :: es[k].page.Some?
    decreases |es| - i
  {
    if i == |es| then x else RecordBases(lands, es, i + 1, RecordBase(lands, es[i], x))
  }

  function ClearAll(lands: Faults, es: seq<Entry>, i: nat, x: Dirty): Dirty
    requires i <= |es|
    decreases |es| - i
  {
    if i == |es| then x else ClearAll(lands, es, i + 1, ClearStored(lands, es[i], x))
  }

  function RecordSidecars(lands: Faults, es: seq<Entry>, i: nat, x: Dirty): Dirty
    requires i <= |es| && forall k | 0 <= k < |es| :: es[k].state.Conflict? && es[k].page.Some?
    decreases |es| - i
  {
    if i == |es| then x else RecordSidecars(lands, es, i + 1, RecordSidecar(lands, es[i], x))
  }

  predicate Shaped(r: Run) {
    && (forall k | 0 <= k < |r.writes| :: r.writes[k].page.Some?)
    && (forall k | 0 <= k < |r.adopts| :: r.adopts[k].page.Some?)
    && (forall k | 0 <= k < |r.sidecars| :: r.sidecars[k].state.Conflict? && r.sidecars[k].page.Some?)
  }

  lemma {:induction false} ApplyShapes(lands: Faults, edits: Edits, es: seq<Entry>, i: nat, r: Run)
    requires i <= |es| && Shaped(r)
    ensures Shaped(ApplyFrom(lands, edits, es, i, r))
    decreases |es| - i
  {
    if i < |es| {
      ApplyShapes(lands, edits, es, i + 1, ApplyEntry(lands, edits, i, es[i], r));
    }
  }

  function SaveDirty(lands: Faults, x: Dirty, head: Sha): Store {
    var s1 := if x.bases then SaveBases(lands, x.store) else x.store;
    var s2 := if x.conflicts then SaveConflicts(lands, s1) else s1;
    var s3 := s2.(state := s2.state.(lastPull := head));
    if x.state || s2.state.lastPull != head then SaveState(lands, s3) else s3
  }

  function Stored(lands: Faults, r: Run): Dirty
    requires Shaped(r)
  {
    var stored := r.writes + r.adopts;
    var x := RecordBases(lands, stored, 0, Dirty(r.store, false, false, false));
    RecordSidecars(lands, r.sidecars, 0, ClearAll(lands, stored, 0, x))
  }

  function Finish(lands: Faults, r: Run, head: Sha): Store
    requires Shaped(r)
  {
    SaveDirty(lands, Stored(lands, r), head)
  }

  function Started(s: Store): Run {
    Run(s, [], [], [], false)
  }

  /** One pull of the classified entries: `head` is the batch's new_head. */
  function PullEntries(lands: Faults, edits: Edits, es: seq<Entry>, head: Sha, s: Store): Store {
    ApplyShapes(lands, edits, es, 0, Started(s));
    Finish(lands, ApplyFrom(lands, edits, es, 0, Started(s)), head)
  }

  // ---- The engine ----

  /** `pullRun`: the working set of one pull over an open hub. */
  class PullRun {
    const hub: OpenHub
    var entries: seq<Entry>
    var writes: seq<Entry>
    var adopts: seq<Entry>
    var sidecars: seq<Entry>
    var stopped: bool

    ghost function Value(): Run
      reads this, hub
    {
      Run(hub.Value(), writes, adopts, sidecars, stopped)
    }

    constructor (hub: OpenHub)
      ensures this.hub == hub && entries == [] && Value() == Started(hub.Value())
    {
      this.hub := hub;
      entries, writes, adopts, sidecars, stopped := [], [], [], [], false;
    }

    /** `pullClassify`, and the fetched pages filled in. */
    method Classify(listing: map<Path, Sha>, delivered: Delivery, paths: seq<Path>)
      modifies this`entries
      ensures entries == Entries(hub.Value(), listing, delivered, paths)
    {
      var s := Store(hub.disk, hub.bases, hub.conflicts, hub.state);
      entries := [];
      for i := 0 to |paths|
        invariant |entries| == i
        invariant forall k | 0 <= k < i :: entries[k] == EntryOf(s, listing, delivered, paths[k])
      {
        entries := entries + [EntryOf(s, listing, delivered, paths[i])];
      }
    }

    method Replace(e: Entry)
      requires e.page.Some?
      modifies this, hub
      ensures Value() == Overwrite(hub.lands, e, old(Value())) && entries == old(entries)
    {
      var ok := hub.PutFile(e.path, e.page.value.content);
      if ok {
        writes := writes + [e];
      } else {
        stopped := true;
      }
    }

    /** `pullApply`: every needed page in path order, each re-read right before pull acts on it. */
    method Apply(edits: Edits)
      modifies this, hub
      ensures Value() == ApplyFrom(hub.lands, edits, old(entries), 0, old(Value())) && entries == old(entries)
    {
      var i := 0;
      while i < |entries|
        invariant i <= |entries| && entries == old(entries)
        invariant ApplyFrom(hub.lands, edits, entries, i, Value())
               == ApplyFrom(hub.lands, edits, entries, 0, old(Value()))
      {
        ApplyOne(edits, i);
        i := i + 1;
      }
    }

    method ApplyOne(edits: Edits, i: nat)
      requires i < |entries|
      modifies this, hub
      ensures Value() == ApplyEntry(hub.lands, edits, i, old(entries)[i], old(Value())) && entries == old(entries)
    {
      var e := entries[i];
      if stopped || !Needed(e.state) || e.page.None? {
        return;
      }
      hub.disk := hub.disk.(files := edits(i, hub.disk.files));
      var files := hub.disk.files;
      if e.state.Incoming? {
        if e.path in files && e.facts.base.BaseValid? && HashOf(files[e.path]) == e.facts.base.hash {
          Replace(e);
        }
      } else if e.state.IncomingNew? {
        if e.path !in files {
          Replace(e);
        }
      } else if e.path in files && e.facts.local == LocalValid(HashOf(files[e.path])) {
        if HashOf(files[e.path]) == HashOf(e.page.value.content) {
          adopts := adopts + [e];
        } else if e.state.Conflict? && !SidecarCurrent(e) {
          sidecars := sidecars + [e];
        }
      }
    }

    /** `pullStoreBases`. */
    method StoreBases(stored: seq<Entry>) returns (basesDirty: bool, stateDirty: bool)
      requires forall k | 0 <= k < |stored| :: stored[k].page.Some?
      modifies hub
      ensures Dirty(hub.Value(), basesDirty, false, stateDirty)
           == RecordBases(hub.lands, stored, 0, Dirty(old(hub.Value()), false, false, false))
    {
      basesDirty, stateDirty := false, false;
      var i := 0;
      while i < |stored|
        invariant i <= |stored|
        invariant RecordBases(hub.lands, stored, i, Dirty(hub.Value(), basesDirty, false, stateDirty))
               == RecordBases(hub.lands, stored, 0, Dirty(old(hub.Value()), false, false, false))
      {
        var e := stored[i];
        var ok := hub.PutBasePage(e.path, e.page.value.content, e.page.value.sha);
        basesDirty := basesDirty || ok;
        if ShaAt(hub.state.shas, e.path) != e.page.value.sha {
          hub.state := hub.state.(shas := hub.state.shas[e.path := e.page.value.sha]);
          stateDirty := true;
        }
        i := i + 1;
      }
    }

    /** `pullStoreSidecars`. */
    method StoreSidecars(stored: seq<Entry>, ghost x: Dirty) returns (dirty: bool)
      requires x == Dirty(hub.Value(), x.bases, false, x.state)
      requires forall k | 0 <= k < |sidecars| :: sidecars[k].state.Conflict? && sidecars[k].page.Some?
      modifies hub
      ensures Dirty(hub.Value(), x.bases, dirty, x.state)
           == RecordSidecars(hub.lands, sidecars, 0, ClearAll(hub.lands, stored, 0, x))
    {
      dirty := false;
      var i := 0;
      while i < |stored|
        invariant i <= |stored|
        invariant ClearAll(hub.lands, stored, i, Dirty(hub.Value(), x.bases, dirty, x.state))
               == ClearAll(hub.lands, stored, 0, x)
      {
        if stored[i].path in hub.conflicts {
          var ok := hub.ClearSidecar(stored[i].path);
          dirty := dirty || ok;
        }
        i := i + 1;
      }
      i := 0;
      ghost var y := Dirty(hub.Value(), x.bases, dirty, x.state);
      while i < |sidecars|
        invariant i <= |sidecars|
        invariant RecordSidecars(hub.lands, sidecars, i, Dirty(hub.Value(), x.bases, dirty, x.state))
               == RecordSidecars(hub.lands, sidecars, 0, y)
      {
        var e := sidecars[i];
        var ok := hub.PutSidecar(e.path, WantedRecord(e), e.page.value.content);
        dirty := dirty || ok;
        i := i + 1;
      }
    }

    /** `pullFinish`: base files, sidecars, then each changed index file once, state.json last. */
    method Save(head: Sha)
      requires Shaped(Value())
      modifies hub
      ensures hub.Value() == Finish(hub.lands, old(Value()), head)
    {
      var stored := writes + adopts;
      var basesDirty, stateDirty := StoreBases(stored);
      var conflictsDirty := StoreSidecars(stored, Dirty(hub.Value(), basesDirty, false, stateDirty));
      if basesDirty {
        var _ := hub.SaveBaseIndex();
      }
      if conflictsDirty {
        var _ := hub.SaveConflictIndex();
      }
      if hub.state.lastPull != head {
        hub.state := hub.state.(lastPull := head);
        stateDirty := true;
      }
      if stateDirty {
        var _ := hub.SaveSyncState();
      }
    }
  }

  /** A whole pull over an open hub. */
  method RunPull(hub: OpenHub, edits: Edits, listing: map<Path, Sha>, delivered: Delivery, paths: seq<Path>, head: Sha)
    modifies hub
    ensures hub.Value() == PullEntries(hub.lands, edits, Entries(old(hub.Value()), listing, delivered, paths), head,
                                       old(hub.Value()))
  {
    var run := new PullRun(hub);
    run.Classify(listing, delivered, paths);
    ApplyShapes(hub.lands, edits, run.entries, 0, run.Value());
    run.Apply(edits);
    run.Save(head);
  }
}

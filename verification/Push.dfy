/** `ctx push` (internal/syncops/push.go): what is sent, and what is recorded of the server's answer. */
module Push {
  import opened Basics
  import opened Pages
  import opened Contract
  import opened Hub

  // ---- The batch ----

  /** A classified path; `overlay` when a sidecar turned a modified page into a conflict. */
  datatype Entry = Entry(path: Path, facts: Facts, state: PageState, overlay: bool)

  function EntryOf(s: Store, listing: map<Path, Sha>, p: Path): Entry {
    var f := Gather(s, p, Some(listing));
    Entry(p, f, FactsState(f), FactsState(f) != Classify(f.local, f.base, f.remote))
  }

  /** `pushItemOf`: the canonical form, on top of the base, or to a page that must not exist yet. */
  function ItemOf(s: Store, e: Entry): Option<PushFile> {
    if e.path !in s.disk.files || Normalize(s.disk.files[e.path]).None? then None
    else Some(PushFile(e.path, Normalize(s.disk.files[e.path]).value, BaseSha(e.facts.base), e.facts.base.BaseNone?))
  }

  predicate Sendable(st: PageState) {
    st.Modified? || st.New?
  }

  /** The request file of path `p`, if it is sent. */
  function Sent(s: Store, listing: map<Path, Sha>, p: Path): Option<PushFile> {
    var e := EntryOf(s, listing, p);
    if Sendable(e.state) then ItemOf(s, e) else None
  }

  /** The files sent, and the conflicts skipped, of the wanted paths from the `i`-th on, after those found so far. */
  function BatchFrom(s: Store, listing: map<Path, Sha>, paths: seq<Path>, i: nat, found: seq<PushFile>): seq<PushFile>
    requires i <= |paths|
    decreases |paths| - i
  {
    if i == |paths| then found
    else
      var f := Sent(s, listing, paths[i]);
      BatchFrom(s, listing, paths, i + 1, if f.Some? then found + [f.value] else found)
  }

  function ConflictsFrom(s: Store, listing: map<Path, Sha>, paths: seq<Path>, i: nat, found: seq<Entry>): seq<Entry>
    requires i <= |paths|
    decreases |paths| - i
  {
    if i == |paths| then found
    else
      var e := EntryOf(s, listing, paths[i]);
      ConflictsFrom(s, listing, paths, i + 1, if e.state.Conflict? then found + [e] else found)
  }

  // ---- Exactly what is sent and what is skipped as a conflict ----

  /** The file is a page that normalizes, and the server does not list it - whether or not it has a base, and whether
      or not that base is still there -, or lists it at its base, from which the file differs, with no conflict
      recorded. */
  ghost predicate MustSend(s: Store, listing: map<Path, Sha>, p: Path) {
    && IsPage(s, p) && Normalize(s.disk.files[p]).Some?
    && (|| p !in listing
        || (listing[p] == ShaAt(s.state.shas, p) && EditedSinceBase(s, p) && !ConflictNamed(s, p)))
  }

  /** Its canonical form, on top of its page_shas value; without one the page must not exist. */
  ghost function FileToSend(s: Store, p: Path): PushFile
    requires p in s.disk.files && Normalize(s.disk.files[p]).Some?
  {
    var sha := ShaAt(s.state.shas, p);
    PushFile(p, Normalize(s.disk.files[p]).value, sha, sha == NoSha)
  }

  /** The server lists the page, which the user has added too, or has edited since a base the server moved past - or
      at which a conflict is recorded. */
  ghost predicate InConflict(s: Store, listing: map<Path, Sha>, p: Path) {
    var sha := ShaAt(s.state.shas, p);
    && IsPage(s, p) && p in listing
    && (sha == NoSha || (EditedSinceBase(s, p) && (listing[p] != sha || ConflictNamed(s, p))))
  }

  lemma SentIff(s: Store, listing: map<Path, Sha>, p: Path)
    ensures Sent(s, listing, p).Some? <==> MustSend(s, listing, p)
    ensures Sent(s, listing, p).Some? ==> Sent(s, listing, p).value == FileToSend(s, p)
  {
    hide HashOf;
  }

  lemma ConflictIff(s: Store, listing: map<Path, Sha>, p: Path)
    ensures var e := EntryOf(s, listing, p); var sha := ShaAt(s.state.shas, p);
      && e.path == p
      && (e.state.Conflict? <==> InConflict(s, listing, p))
      && (e.state.Conflict? ==>
            && (e.overlay <==> sha != NoSha && listing[p] == sha)
            && e.state.kind == if sha == NoSha then BothAdded
                               else if listing[p] != sha then BothModified else s.conflicts[p].kind)
  {
    hide HashOf;
  }

  /** One of the first `n` wanted paths is `p`, and one before it is `q`. */
  ghost predicate Before(paths: seq<Path>, n: nat, q: Path, p: Path)
    requires n <= |paths|
  {
    exists l, m :: 0 <= l < m < n && paths[l] == q && paths[m] == p
  }

  /** The paths come from the first `n` wanted ones, in their order. */
  ghost predicate InOrder(ps: seq<Path>, paths: seq<Path>, n: nat)
    requires n <= |paths|
  {
    && (forall k | 0 <= k < |ps| :: ps[k] in paths[..n])
    && (forall j, k | 0 <= j < k < |ps| :: Before(paths, n, ps[j], ps[k]))
  }

  lemma InOrderSnoc(ps: seq<Path>, paths: seq<Path>, n: nat)
    requires n < |paths| && InOrder(ps, paths, n)
    ensures InOrder(ps, paths, n + 1) && InOrder(ps + [paths[n]], paths, n + 1)
  {
    assert paths[..n + 1] == paths[..n] + [paths[n]];
    forall j, k | 0 <= j < k < |ps|
      ensures Before(paths, n + 1, ps[j], ps[k])
    {
      assert Before(paths, n, ps[j], ps[k]);
    }
    forall j | 0 <= j < |ps|
      ensures Before(paths, n + 1, ps[j], paths[n])
    {
      assert ps[j] in paths[..n];
    }
  }

  function FilePaths(fs: seq<PushFile>): seq<Path> {
    seq(|fs|, k requires 0 <= k < |fs| => fs[k].path)
  }

  function EntryPaths(es: seq<Entry>): seq<Path> {
    seq(|es|, k requires 0 <= k < |es| => es[k].path)
  }

  lemma NoneYet(paths: seq<Path>)
    ensures InOrder(FilePaths([]), paths, 0) && InOrder(EntryPaths([]), paths, 0)
  {
  }

  lemma {:induction false} BatchIsExact(s: Store, listing: map<Path, Sha>, paths: seq<Path>, i: nat,
                                        found: seq<PushFile>)
    requires i <= |paths| && InOrder(FilePaths(found), paths, i)
    requires forall f :: f in found <==>
               f.path in paths[..i] && MustSend(s, listing, f.path) && f == FileToSend(s, f.path)
    ensures var b := BatchFrom(s, listing, paths, i, found);
      && (forall f :: f in b <==> f.path in paths && MustSend(s, listing, f.path) && f == FileToSend(s, f.path))
      && InOrder(FilePaths(b), paths, |paths|)
    decreases |paths| - i
  {
    hide MustSend, FileToSend, Sent, InOrder, IsPage;
    if i < |paths| {
      var f := Sent(s, listing, paths[i]);
      SentIff(s, listing, paths[i]);
      assert paths[..i + 1] == paths[..i] + [paths[i]];
      InOrderSnoc(FilePaths(found), paths, i);
      var next := if f.Some? then found + [f.value] else found;
      if f.Some? {
        SendsItsPath(s, listing, paths[i]);
        assert FilePaths(next) == FilePaths(found) + [paths[i]];
      }
      BatchIsExact(s, listing, paths, i + 1, next);
    } else {
      assert paths[..i] == paths;
    }
  }

  lemma SendsItsPath(s: Store, listing: map<Path, Sha>, p: Path)
    requires MustSend(s, listing, p)
    ensures p in s.disk.files && Normalize(s.disk.files[p]).Some? && FileToSend(s, p).path == p
  {
  }

  lemma {:induction false} ConflictsAreExact(s: Store, listing: map<Path, Sha>, paths: seq<Path>, i: nat,
                                             found: seq<Entry>)
    requires i <= |paths| && InOrder(EntryPaths(found), paths, i)
    requires forall e :: e in found <==>
               e.path in paths[..i] && InConflict(s, listing, e.path) && e == EntryOf(s, listing, e.path)
    ensures var c := ConflictsFrom(s, listing, paths, i, found);
      && (forall e :: e in c <==>
            e.path in paths && InConflict(s, listing, e.path) && e == EntryOf(s, listing, e.path))
      && InOrder(EntryPaths(c), paths, |paths|)
    decreases |paths| - i
  {
    hide InConflict, EntryOf, InOrder;
    if i < |paths| {
      var e := EntryOf(s, listing, paths[i]);
      ConflictIff(s, listing, paths[i]);
      assert paths[..i + 1] == paths[..i] + [paths[i]];
      InOrderSnoc(EntryPaths(found), paths, i);
      var next := if e.state.Conflict? then found + [e] else found;
      if e.state.Conflict? {
        assert EntryPaths(next) == EntryPaths(found) + [paths[i]];
      }
      ConflictsAreExact(s, listing, paths, i + 1, next);
    } else {
      assert paths[..i] == paths;
    }
  }

  // ---- The sidecars of conflicts the listing already showed ----

  datatype Fetched = Gone | Got(content: Bytes, sha: Sha)

  datatype Sidecar = Sidecar(path: Path, rec: ConflictRecord, content: Bytes)

  function SidecarBase(e: Entry): Sha {
    if e.state == Conflict(BothAdded) then NoSha else BaseSha(e.facts.base)
  }

  /** Conflicts the overlay made, and those recorded as they stand, are left alone. */
  predicate NeedsSidecar(e: Entry) {
    && e.state.Conflict? && !e.overlay && e.facts.remote.RemotePresent? && e.facts.remote.sha != NoSha
    && e.facts.sidecar != Some(ConflictRecord(e.facts.remote.sha, SidecarBase(e), e.state.kind, true))
  }

  /** A page the server no longer has gets none; one that could not be fetched gets the listing's sha without
      content. */
  function SidecarFor(e: Entry, fetched: map<Path, Fetched>): Option<Sidecar> {
    if !NeedsSidecar(e) then None
    else if e.path !in fetched
    then Some(Sidecar(e.path, ConflictRecord(e.facts.remote.sha, SidecarBase(e), e.state.kind, false), EMPTY))
    else match fetched[e.path]
      case Gone => None
      case Got(content, sha) =>
        var c := Sanitize(content);
        var at := if sha != NoSha then sha else e.facts.remote.sha;
        Some(Sidecar(e.path, ConflictRecord(at, SidecarBase(e), e.state.kind, c != EMPTY), c))
  }

  function SidecarsFrom(es: seq<Entry>, fetched: map<Path, Fetched>, i: nat, found: seq<Sidecar>): seq<Sidecar>
    requires i <= |es|
    decreases |es| - i
  {
    if i == |es| then found
    else
      var sc := SidecarFor(es[i], fetched);
      SidecarsFrom(es, fetched, i + 1, if sc.Some? then found + [sc.value] else found)
  }

  /** A conflict the listing shows - not one that only a recorded sidecar makes - which is not recorded as it stands. */
  ghost predicate MustNote(s: Store, listing: map<Path, Sha>, p: Path) {
    var sha := ShaAt(s.state.shas, p);
    && IsPage(s, p) && p in listing && listing[p] != NoSha && listing[p] != sha
    && (sha == NoSha || EditedSinceBase(s, p))
    && !(p in s.conflicts
         && s.conflicts[p] == ConflictRecord(listing[p], sha, if sha == NoSha then BothAdded else BothModified, true))
  }

  /** Such a conflict gets a sidecar of the version fetched, under the sha it came with or else the listing's; of none,
      under the listing's, when it could not be fetched; and no sidecar when the page is gone. Any other page gets
      none. */
  lemma SidecarIs(s: Store, listing: map<Path, Sha>, p: Path, fetched: map<Path, Fetched>)
    ensures var sc := SidecarFor(EntryOf(s, listing, p), fetched); var sha := ShaAt(s.state.shas, p);
      && (sc.Some? <==> MustNote(s, listing, p) && !(p in fetched && fetched[p].Gone?))
      && (sc.Some? ==>
            && sc.value.path == p
            && sc.value.content == (if p in fetched then Sanitize(fetched[p].content) else EMPTY)
            && sc.value.rec == ConflictRecord(
                 if p in fetched && fetched[p].sha != NoSha then fetched[p].sha else listing[p], sha,
                 if sha == NoSha then BothAdded else BothModified, sc.value.content != EMPTY))
  {
    hide HashOf;
  }

  lemma {:induction false} SidecarsAreExact(es: seq<Entry>, fetched: map<Path, Fetched>, i: nat, found: seq<Sidecar>)
    requires i <= |es|
    ensures forall sc :: sc in SidecarsFrom(es, fetched, i, found) <==>
              sc in found || exists k :: i <= k < |es| && SidecarFor(es[k], fetched) == Some(sc)
    decreases |es| - i
  {
    hide SidecarFor;
    if i < |es| {
      var sc := SidecarFor(es[i], fetched);
      SidecarsAreExact(es, fetched, i + 1, if sc.Some? then found + [sc.value] else found);
    }
  }

  /** Of the wanted pages exactly those conflicts are noted. */
  lemma ListedConflictsAreNoted(s: Store, listing: map<Path, Sha>, paths: seq<Path>, fetched: map<Path, Fetched>)
    ensures var out := SidecarsFrom(ConflictsFrom(s, listing, paths, 0, []), fetched, 0, []);
      forall p :: (exists sc :: sc in out && sc.path == p)
                  <==> p in paths && MustNote(s, listing, p) && !(p in fetched && fetched[p].Gone?)
  {
    hide MustNote, SidecarFor, EntryOf, InOrder, IsPage;
    var es := ConflictsFrom(s, listing, paths, 0, []);
    NoneYet(paths);
    ConflictsAreExact(s, listing, paths, 0, []);
    SidecarsAreExact(es, fetched, 0, []);
    var out := SidecarsFrom(es, fetched, 0, []);
    forall p | p in paths && MustNote(s, listing, p) && !(p in fetched && fetched[p].Gone?)
      ensures exists sc :: sc in out && sc.path == p
    {
      SidecarIs(s, listing, p, fetched);
      ConflictIff(s, listing, p);
      NotedIsConflict(s, listing, p);
      assert EntryOf(s, listing, p) in es;
      assert SidecarFor(EntryOf(s, listing, p), fetched).value in out;
    }
    forall sc | sc in out
      ensures sc.path in paths && MustNote(s, listing, sc.path) && !(sc.path in fetched && fetched[sc.path].Gone?)
    {
      var k :| 0 <= k < |es| && SidecarFor(es[k], fetched) == Some(sc);
      assert es[k] in es;
      SidecarIs(s, listing, es[k].path, fetched);
    }
  }

  lemma NotedIsConflict(s: Store, listing: map<Path, Sha>, p: Path)
    requires MustNote(s, listing, p)
    ensures InConflict(s, listing, p)
  {
  }

  // ---- The answer ----

  datatype Pushed = Pushed(path: Path, sha: Sha)
  datatype Refusal = Refusal(path: Path, sha: Sha, content: Bytes)
  datatype Response = Response(pushed: seq<Pushed>, conflicts: seq<Refusal>)

  type Batch = map<Path, PushFile>

  datatype Progress = Progress(store: Store, seen: set<Path>, recorded: map<Path, Sha>, order: seq<Path>,
                               bases: bool, conflicts: bool)

  function TakePushed(lands: Faults, sent: Batch, a: Pushed, x: Progress): Progress {
    if a.path !in sent || a.path in x.seen then x
    else
      var x := x.(seen := x.seen + {a.path});
      if a.sha == NoSha then x
      else x.(recorded := x.recorded[a.path := a.sha], order := x.order + [a.path],
              store := PutBase(lands, x.store, a.path, sent[a.path].content, a.sha),
              bases := x.bases || PutBaseOk(lands, x.store, a.sha))
  }

  function RefusalRecord(f: PushFile, a: Refusal): ConflictRecord {
    if f.expectAbsent then ConflictRecord(a.sha, NoSha, BothAdded, Sanitize(a.content) != EMPTY)
    else ConflictRecord(a.sha, f.parent, BothModified, Sanitize(a.content) != EMPTY)
  }

  function TakeRefusal(lands: Faults, sent: Batch, a: Refusal, x: Progress): Progress {
    if a.path !in sent || a.path in x.seen then x
    else
      var rec := RefusalRecord(sent[a.path], a);
      x.(seen := x.seen + {a.path},
         store := PutConflict(lands, x.store, a.path, rec, Sanitize(a.content)),
         conflicts := x.conflicts || PutConflictOk(lands, x.store, rec))
  }

  function TakeSidecar(lands: Faults, sc: Sidecar, x: Progress): Progress {
    x.(store := PutConflict(lands, x.store, sc.path, sc.rec, sc.content),
       conflicts := x.conflicts || PutConflictOk(lands, x.store, sc.rec))
  }

  function ClearPushed(lands: Faults, p: Path, x: Progress): Progress {
    if p !in x.store.conflicts then x
    else x.(store := ClearConflict(lands, x.store, p), conflicts := x.conflicts || lands(x.store.disk.writes))
  }

  function PushedFrom(lands: Faults, sent: Batch, xs: seq<Pushed>, i: nat, x: Progress): Progress
    requires i <= |xs|
    decreases |xs| - i
  {
    if i == |xs| then x else PushedFrom(lands, sent, xs, i + 1, TakePushed(lands, sent, xs[i], x))
  }

  function RefusedFrom(lands: Faults, sent: Batch, xs: seq<Refusal>, i: nat, x: Progress): Progress
    requires i <= |xs|
    decreases |xs| - i
  {
    if i == |xs| then x else RefusedFrom(lands, sent, xs, i + 1, TakeRefusal(lands, sent, xs[i], x))
  }

  function RecordFrom(lands: Faults, xs: seq<Sidecar>, i: nat, x: Progress): Progress
    requires i <= |xs|
    decreases |xs| - i
  {
    if i == |xs| then x else RecordFrom(lands, xs, i + 1, TakeSidecar(lands, xs[i], x))
  }

  function ClearFrom(lands: Faults, ps: seq<Path>, i: nat, x: Progress): Progress
    requires i <= |ps|
    decreases |ps| - i
  {
    if i == |ps| then x else ClearFrom(lands, ps, i + 1, ClearPushed(lands, ps[i], x))
  }

  function SaveProgress(lands: Faults, x: Progress): Store {
    var s1 := if x.bases then SaveBases(lands, x.store) else x.store;
    var s2 := if x.conflicts then SaveConflicts(lands, s1) else s1;
    if x.recorded == map[] then s2
    else SaveState(lands, s2.(state := s2.state.(shas := s2.state.shas + x.recorded)))
  }

  function Answered(lands: Faults, s: Store, sent: Batch, resp: Response, sidecars: seq<Sidecar>): Progress {
    var x1 := PushedFrom(lands, sent, resp.pushed, 0, Progress(s, {}, map[], [], false, false));
    var x2 := RefusedFrom(lands, sent, resp.conflicts, 0, x1);
    var x3 := RecordFrom(lands, sidecars, 0, x2);
    ClearFrom(lands, x3.order, 0, x3)
  }

  /** `pushApply`. */
  function ApplyAnswer(lands: Faults, s: Store, sent: Batch, resp: Response, sidecars: seq<Sidecar>): Store {
    SaveProgress(lands, Answered(lands, s, sent, resp, sidecars))
  }

  // ---- The engine ----

  class PushRun {
    const hub: OpenHub
    var batch: seq<PushFile>
    var conflicts: seq<Entry>
    var seen: set<Path>
    var recorded: map<Path, Sha>
    var order: seq<Path>
    var basesChanged: bool
    var conflictsChanged: bool

    ghost function Value(): Progress
      reads this, hub
    {
      Progress(hub.Value(), seen, recorded, order, basesChanged, conflictsChanged)
    }

    constructor (hub: OpenHub)
      ensures this.hub == hub && batch == [] && conflicts == []
      ensures Value() == Progress(hub.Value(), {}, map[], [], false, false)
    {
      this.hub := hub;
      batch, conflicts, seen, recorded, order := [], [], {}, map[], [];
      basesChanged, conflictsChanged := false, false;
    }

    /** `pushBatchAll` and `pushBatchNamed` over the paths the arguments or the filter select: exactly the pages that
        must be sent are, and exactly the conflicts are found, in path order. */
    method BuildBatch(listing: map<Path, Sha>, paths: seq<Path>)
      modifies this`batch, this`conflicts
      ensures batch == BatchFrom(hub.Value(), listing, paths, 0, [])
      ensures conflicts == ConflictsFrom(hub.Value(), listing, paths, 0, [])
      ensures var s := hub.Value(); forall f :: f in batch <==>
        f.path in paths && MustSend(s, listing, f.path) && f == FileToSend(s, f.path)
      ensures var s := hub.Value(); forall e :: e in conflicts <==>
        e.path in paths && InConflict(s, listing, e.path) && e == EntryOf(s, listing, e.path)
      ensures InOrder(FilePaths(batch), paths, |paths|) && InOrder(EntryPaths(conflicts), paths, |paths|)
    {
      var s := Store(hub.disk, hub.bases, hub.conflicts, hub.state);
      batch, conflicts := [], [];
      hide EntryOf, Sent;
      var i := 0;
      while i < |paths|
        invariant i <= |paths|
        invariant BatchFrom(s, listing, paths, i, batch) == BatchFrom(s, listing, paths, 0, [])
        invariant ConflictsFrom(s, listing, paths, i, conflicts) == ConflictsFrom(s, listing, paths, 0, [])
      {
        var e := EntryOf(s, listing, paths[i]);
        var f := Sent(s, listing, paths[i]);
        if f.Some? {
          batch := batch + [f.value];
        }
        if e.state.Conflict? {
          conflicts := conflicts + [e];
        }
        i := i + 1;
      }
      hide MustSend, FileToSend, InConflict, IsPage, InOrder;
      NoneYet(paths);
      BatchIsExact(s, listing, paths, 0, []);
      ConflictsAreExact(s, listing, paths, 0, []);
    }

    method ListingSidecars(fetched: map<Path, Fetched>) returns (out: seq<Sidecar>)
      ensures out == SidecarsFrom(conflicts, fetched, 0, [])
      ensures forall sc :: sc in out <==>
                exists k :: 0 <= k < |conflicts| && SidecarFor(conflicts[k], fetched) == Some(sc)
    {
      out := [];
      hide SidecarFor;
      var i := 0;
      while i < |conflicts|
        invariant i <= |conflicts|
        invariant SidecarsFrom(conflicts, fetched, i, out) == SidecarsFrom(conflicts, fetched, 0, [])
      {
        var sc := SidecarFor(conflicts[i], fetched);
        if sc.Some? {
          out := out + [sc.value];
        }
        i := i + 1;
      }
      SidecarsAreExact(conflicts, fetched, 0, []);
    }

    method TakeAccepted(sent: Batch, xs: seq<Pushed>)
      modifies this, hub
      ensures Value() == PushedFrom(hub.lands, sent, xs, 0, old(Value()))
    {
      var i := 0;
      while i < |xs|
        invariant i <= |xs|
        invariant PushedFrom(hub.lands, sent, xs, i, Value()) == PushedFrom(hub.lands, sent, xs, 0, old(Value()))
      {
        var a := xs[i];
        if a.path in sent && a.path !in seen {
          seen := seen + {a.path};
          if a.sha != NoSha {
            recorded := recorded[a.path := a.sha];
            order := order + [a.path];
            var ok := hub.PutBasePage(a.path, sent[a.path].content, a.sha);
            basesChanged := basesChanged || ok;
          }
        }
        i := i + 1;
      }
    }

    method TakeRefused(sent: Batch, xs: seq<Refusal>)
      modifies this, hub
      ensures Value() == RefusedFrom(hub.lands, sent, xs, 0, old(Value()))
    {
      var i := 0;
      while i < |xs|
        invariant i <= |xs|
        invariant RefusedFrom(hub.lands, sent, xs, i, Value()) == RefusedFrom(hub.lands, sent, xs, 0, old(Value()))
      {
        var a := xs[i];
        if a.path in sent && a.path !in seen {
          seen := seen + {a.path};
          var ok := hub.PutSidecar(a.path, RefusalRecord(sent[a.path], a), Sanitize(a.content));
          conflictsChanged := conflictsChanged || ok;
        }
        i := i + 1;
      }
    }

    method TakeSidecars(xs: seq<Sidecar>)
      modifies this, hub
      ensures Value() == RecordFrom(hub.lands, xs, 0, old(Value()))
    {
      var i := 0;
      while i < |xs|
        invariant i <= |xs|
        invariant RecordFrom(hub.lands, xs, i, Value()) == RecordFrom(hub.lands, xs, 0, old(Value()))
      {
        var ok := hub.PutSidecar(xs[i].path, xs[i].rec, xs[i].content);
        conflictsChanged := conflictsChanged || ok;
        i := i + 1;
      }
    }

    method ClearRecorded()
      modifies this, hub
      ensures Value() == ClearFrom(hub.lands, old(order), 0, old(Value()))
    {
      var i := 0;
      while i < |order|
        invariant i <= |order| && order == old(order)
        invariant ClearFrom(hub.lands, order, i, Value()) == ClearFrom(hub.lands, order, 0, old(Value()))
      {
        if order[i] in hub.conflicts {
          var ok := hub.ClearSidecar(order[i]);
          conflictsChanged := conflictsChanged || ok;
        }
        i := i + 1;
      }
    }

    /** Base files, sidecars, then each changed index file once, state.json last. */
    method Apply(sent: Batch, resp: Response, sidecars: seq<Sidecar>)
      requires seen == {} && recorded == map[] && order == [] && !basesChanged && !conflictsChanged
      modifies this, hub
      ensures hub.Value() == ApplyAnswer(hub.lands, old(hub.Value()), sent, resp, sidecars)
    {
      TakeAccepted(sent, resp.pushed);
      TakeRefused(sent, resp.conflicts);
      TakeSidecars(sidecars);
      ClearRecorded();
      if basesChanged {
        var _ := hub.SaveBaseIndex();
      }
      if conflictsChanged {
        var _ := hub.SaveConflictIndex();
      }
      if recorded != map[] {
        hub.state := hub.state.(shas := hub.state.shas + recorded);
        var _ := hub.SaveSyncState();
      }
    }
  }
}

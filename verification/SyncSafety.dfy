/** The safety of the sync engine over whole runs. */
module SyncSafety {
  import opened Basics
  import opened Pages
  import opened Contract
  import opened Hub
  import opened SyncRuns
  import Pull
  import PullSafety
  import Push
  import PushSafety
  import Resolve
  import Repair
  import RepairPlan
  import RepairSafety

  // ---- The invariant ----

  ghost predicate TrueMemory(v: Server, s: Store) {
    TrueBases(v, s.bases) && IssuedShas(v, s.state.shas) && TrueSidecars(v, s.conflicts)
  }

  /** If the server ever accepts this file over an existing page, then over the very version that is its valid
      base - unless its page_shas value was issued only after the listing from `listed`. */
  ghost predicate SendSafe(v: Server, listed: Server, mem: Store, f: PushFile) {
    || f.expectAbsent
    || (f.parent in v.versions && f.parent == ShaAt(mem.state.shas, f.path)
        && (Head(v, f.path) == f.parent ==> BaseOf(mem, f.path).BaseValid? || f.parent !in listed.versions))
  }

  ghost predicate TrueEntries(v: Server, es: seq<Pull.Entry>) {
    PullSafety.HonestEntries(v, es) && forall k | 0 <= k < |es| :: PullSafety.TrueFacts(v, es[k])
  }

  ghost predicate TrueListed(v: Server, es: seq<Push.Entry>) {
    forall k | 0 <= k < |es| :: TrueRemote(v, es[k])
  }

  ghost predicate TrueRemote(v: Server, e: Push.Entry) {
    e.facts.remote.RemotePresent? && e.facts.remote.sha != NoSha ==> IssuedFor(v, e.facts.remote.sha, e.path)
  }

  ghost predicate TrueBatch(v: Server, listed: Server, mem: Store, batch: map<Path, PushFile>) {
    forall p | p in batch :: batch[p].path == p && SendSafe(v, listed, mem, batch[p])
  }

  /** The server a listing came from. */
  ghost predicate Earlier(listed: Server, v: Server) {
    ServerOk(listed) && Extends(listed, v)
  }

  ghost predicate TrueFlight(v: Server, fl: Flight) {
    match fl
    case Idle => true
    case Pulling(run, es, _, _) =>
      && TrueMemory(v, run.store) && Pull.Shaped(run) && TrueEntries(v, es)
      && PullSafety.HonestEntries(v, run.writes) && PullSafety.HonestEntries(v, run.adopts)
      && PullSafety.HonestEntries(v, run.sidecars)
    case Listed(listed) => Earlier(listed, v)
    case Pushing(mem, batch, _, resp, skipped, listed) =>
      && TrueMemory(v, mem) && TrueBatch(v, listed, mem, batch) && PushSafety.Canonical(batch)
      && PushSafety.HonestResponse(v, batch, resp) && TrueListed(v, skipped)
    case Repairing(mem, acts, back) =>
      TrueMemory(v, mem) && RepairSafety.TrueActions(v, acts) && (back.Some? ==> Earlier(back.value, v))
  }

  /** What the user saved last is still the working file, or is in the server's history, or is in a backup. */
  ghost predicate Kept(v: Server, d: Disk, p: Path, b: Bytes) {
    || (p in d.files && d.files[p] == b)
    || PullSafety.InHistory(v, p, b)
    || BackedUp(d, p, b)
  }

  /** Or it was pushed, and garbled on the way. */
  ghost predicate KeptOrGarbled(v: Server, d: Disk, p: Path, b: Bytes) {
    Kept(v, d, p, b) || PullSafety.GarbledIn(v, p, b)
  }

  ghost predicate BackedUp(d: Disk, p: Path, b: Bytes) {
    exists now: nat :: (p, now) in d.backups && d.backups[(p, now)] == b
  }

  ghost predicate AllKept(v: Server, d: Disk, typed: map<Path, Bytes>) {
    forall p | p in typed :: KeptOrGarbled(v, d, p, typed[p])
  }

  ghost predicate ClientInv(v: Server, x: Client) {
    TrueDisk(v, x.disk) && TrueFlight(v, x.flight) && AllKept(v, x.disk, x.typed)
  }

  ghost predicate Inv(w: World) {
    ServerOk(w.server) && forall c | c in w.clients :: ClientInv(w.server, w.clients[c])
  }

  // ---- A server that moves on leaves every client's invariant in place ----

  lemma HistoryGrows(v: Server, t: Server, d: Disk, p: Path, b: Bytes)
    requires Extends(v, t) && KeptOrGarbled(v, d, p, b)
    ensures KeptOrGarbled(t, d, p, b)
  {
    hide HashOf;
    if PullSafety.InHistory(v, p, b) {
      var sha :| PullSafety.VersionHolds(v, sha, p, b);
      assert PullSafety.VersionHolds(t, sha, p, b);
    }
    if PullSafety.GarbledIn(v, p, b) {
      var sha :| PullSafety.VersionGarbles(v, sha, p, b);
      assert PullSafety.VersionGarbles(t, sha, p, b);
    }
  }

  lemma SendSafeStays(v: Server, t: Server, listed: Server, mem: Store, f: PushFile)
    requires ServerOk(t) && Extends(v, t) && SendSafe(v, listed, mem, f)
    ensures SendSafe(t, listed, mem, f)
  {
    hide BaseOf;
    if !f.expectAbsent && Head(t, f.path) == f.parent {
      assert f.path in t.head;
    }
  }

  lemma FlightStays(v: Server, t: Server, fl: Flight)
    requires ServerOk(t) && Extends(v, t) && TrueFlight(v, fl)
    ensures TrueFlight(t, fl)
  {
    hide HashOf;
    match fl
    case Idle =>
    case Pulling(run, es, _, _) =>
    case Listed(listed) => ExtendsTransitive(listed, v, t);
    case Pushing(mem, batch, _, resp, skipped, listed) =>
      forall p | p in batch
        ensures SendSafe(t, listed, mem, batch[p])
      {
        SendSafeStays(v, t, listed, mem, batch[p]);
      }
      hide SendSafe;
    case Repairing(mem, acts, back) =>
      if back.Some? {
        ExtendsTransitive(back.value, v, t);
      }
  }

  lemma ClientStays(v: Server, t: Server, x: Client)
    requires ServerOk(t) && Extends(v, t) && ClientInv(v, x)
    ensures ClientInv(t, x)
  {
    FlightStays(v, t, x.flight);
    TrueDiskExtends(v, t, x.disk);
    forall p | p in x.typed
      ensures KeptOrGarbled(t, x.disk, p, x.typed[p])
    {
      HistoryGrows(v, t, x.disk, p, x.typed[p]);
    }
    hide TrueFlight, TrueDisk, KeptOrGarbled;
  }

  // ---- Each step keeps it ----

  lemma SameTreeKeeps(v: Server, d: Disk, e: Disk, typed: map<Path, Bytes>)
    requires AllKept(v, d, typed) && e.files == d.files && e.backups == d.backups
    ensures AllKept(v, e, typed)
  {
    forall p | p in typed
      ensures KeptOrGarbled(v, e, p, typed[p])
    {
      assert KeptOrGarbled(v, d, p, typed[p]);
    }
    hide PullSafety.InHistory, PullSafety.GarbledIn;
  }

  lemma SaveKeeps(v: Server, x: Client, p: Path, content: Option<Bytes>)
    requires ClientInv(v, x)
    ensures ClientInv(v, SaveFile(x, p, content))
  {
    hide TrueFlight, TrueBases, IssuedShas, TrueSidecars;
    var y := SaveFile(x, p, content);
    forall q | q in y.typed
      ensures KeptOrGarbled(v, y.disk, q, y.typed[q])
    {
      if q != p {
        assert KeptOrGarbled(v, x.disk, q, x.typed[q]);
      }
    }
  }

  lemma DiskKeeps(v: Server, x: Client, d: Disk, fl: Flight)
    requires ClientInv(v, x) && TrueDisk(v, d) && d.files == x.disk.files && d.backups == x.disk.backups
        && TrueFlight(v, fl)
    ensures ClientInv(v, x.(disk := d, flight := fl))
  {
    hide TrueFlight, TrueDisk, AllKept;
    SameTreeKeeps(v, x.disk, d, x.typed);
  }

  lemma LoseKeeps(v: Server, x: Client, b: bool, c: bool, st: bool, bf: map<Path, Bytes>, sf: map<Path, Bytes>)
    requires ClientInv(v, x)
    ensures ClientInv(v, x.(disk := LoseFiles(x.disk, b, c, st, bf, sf)))
  {
    hide TrueFlight, AllKept;
    DiskKeeps(v, x, LoseFiles(x.disk, b, c, st, bf, sf), x.flight);
  }

  lemma OldBinaryKeeps(v: Server, x: Client, p: Path, sha: Sha)
    requires ClientInv(v, x) && sha in v.versions
    ensures ClientInv(v, x.(disk := x.disk.(state := x.disk.state.(shas := x.disk.state.shas[p := sha]))))
  {
    hide TrueFlight, AllKept;
    DiskKeeps(v, x, x.disk.(state := x.disk.state.(shas := x.disk.state.shas[p := sha])), x.flight);
  }

  lemma OpenIsTrue(v: Server, d: Disk)
    requires TrueDisk(v, d)
    ensures TrueStore(v, Open(d)) && TrueMemory(v, Open(d))
  {
  }

  lemma PullBeginKeeps(v: Server, x: Client, listing: map<Path, Sha>, delivered: Pull.Delivery, paths: seq<Path>,
                       head: Sha)
    requires ClientInv(v, x) && PullSafety.HonestDelivery(v, listing, delivered)
    ensures var s := Open(x.disk);
      ClientInv(v, x.(flight := Pulling(Pull.Started(s), Pull.Entries(s, listing, delivered, paths), 0, head)))
  {
    hide TrueFlight, AllKept, TrueStore, PullSafety.HonestDelivery, PullSafety.HonestEntries;
    var s := Open(x.disk);
    var es := Pull.Entries(s, listing, delivered, paths);
    OpenIsTrue(v, x.disk);
    PullSafety.EntriesAreHonest(v, s, listing, delivered, paths);
    forall k | 0 <= k < |es|
      ensures PullSafety.TrueFacts(v, es[k])
    {
      GatheredBaseIsTrue(v, s, paths[k], Some(listing));
    }
    StartedPullIsTrue(v, s, es, head);
    DiskKeeps(v, x, x.disk, Pulling(Pull.Started(s), es, 0, head));
  }

  lemma StartedPullIsTrue(v: Server, s: Store, es: seq<Pull.Entry>, head: Sha)
    requires TrueMemory(v, s) && TrueEntries(v, es)
    ensures TrueFlight(v, Pulling(Pull.Started(s), es, 0, head))
  {
  }

  lemma PullEntryKeeps(v: Server, x: Client, lands: Faults)
    requires ClientInv(v, x) && x.flight.Pulling? && x.flight.next < |x.flight.entries|
    ensures ClientInv(v, PullOne(x, lands))
  {
    hide TrueBases, IssuedShas, TrueSidecars, Pull.ApplyEntry, PullSafety.HonestEntry, PullSafety.TrueFacts,
         KeptOrGarbled;
    var i := x.flight.next;
    var e := x.flight.entries[i];
    var r := x.flight.run.(store := OnDisk(x.flight.run.store, x.disk));
    assert PullSafety.HonestEntry(v, e) && PullSafety.TrueFacts(v, e);
    PullSafety.ApplyEntryKeeps(v, lands, Pull.NoEdits(), i, e, r);
    PullSafety.ApplyKeepsEdits(v, lands, Pull.NoEdits(), i, e, r);
    var q := Pull.ApplyEntry(lands, Pull.NoEdits(), i, e, r);
    assert Pull.NoEdits()(i, x.disk.files) == x.disk.files;
    BackupsStay(lands, i, e, r);
    forall p | p in x.typed
      ensures KeptOrGarbled(v, q.store.disk, p, x.typed[p])
    {
      assert KeptOrGarbled(v, x.disk, p, x.typed[p]);
      KeptThroughPull(v, e, x.disk, q.store.disk, p, x.typed[p]);
    }
  }

  lemma OverwriteKeepsBackups(lands: Faults, e: Pull.Entry, r: Pull.Run)
    requires e.page.Some?
    ensures Pull.Overwrite(lands, e, r).store.disk.backups == r.store.disk.backups
  {
  }

  lemma BackupsStay(lands: Faults, i: nat, e: Pull.Entry, r: Pull.Run)
    ensures Pull.ApplyEntry(lands, Pull.NoEdits(), i, e, r).store.disk.backups == r.store.disk.backups
  {
    hide HashOf, Pull.SidecarCurrent, Pull.Overwrite, Pull.Needed;
    if e.page.Some? {
      OverwriteKeepsBackups(lands, e, Pull.Edited(Pull.NoEdits(), i, r));
    }
  }

  lemma KeptThroughPull(v: Server, e: Pull.Entry, d: Disk, after: Disk, p: Path, b: Bytes)
    requires KeptOrGarbled(v, d, p, b) && PullSafety.KeepsEdits(v, e, d.files, after.files)
    requires after.backups == d.backups
    ensures KeptOrGarbled(v, after, p, b)
  {
    hide PullSafety.InHistory, PullSafety.GarbledIn;
  }

  lemma PullEndKeeps(v: Server, x: Client, lands: Faults)
    requires ClientInv(v, x) && x.flight.Pulling? && Pull.Shaped(x.flight.run)
    ensures ClientInv(v, PullDone(x, lands))
  {
    hide Pull.Finish, AllKept, TrueBases, IssuedShas, TrueSidecars, PullSafety.HonestEntries;
    var r := x.flight.run.(store := OnDisk(x.flight.run.store, x.disk));
    PullSafety.FinishKeeps(v, lands, r, x.flight.head);
    PullSafety.FinishLeavesFiles(lands, r, x.flight.head);
    DiskKeeps(v, x, Pull.Finish(lands, r, x.flight.head).disk, Idle);
  }

  // ---- Push ----

  lemma {:induction false} BatchMapIn(fs: seq<PushFile>, i: nat)
    requires i <= |fs|
    ensures forall p | p in BatchMap(fs, i) :: BatchMap(fs, i)[p] in fs && BatchMap(fs, i)[p].path == p
    decreases |fs| - i
  {
    if i < |fs| {
      BatchMapIn(fs, i + 1);
    }
  }

  /** What push is about to send is safe, although the listing it classified by is an older one. */
  lemma GuardedIsSafe(v: Server, listed: Server, s: Store, f: PushFile)
    requires ServerOk(v) && Earlier(listed, v) && TrueMemory(v, s) && PushSafety.Guarded(s, listed.head, f)
    ensures SendSafe(v, listed, s, f)
  {
    hide BaseOf;
    if !f.expectAbsent {
      assert f.path in s.state.shas && s.state.shas[f.path] in v.versions;
    }
  }

  lemma {:induction false} SkippedAreListed(v: Server, listed: Server, s: Store, paths: seq<Path>, i: nat,
                                            found: seq<Push.Entry>)
    requires Earlier(listed, v) && i <= |paths| && TrueListed(v, found)
    ensures TrueListed(v, Push.ConflictsFrom(s, listed.head, paths, i, found))
    decreases |paths| - i
  {
    hide FactsState, LocalOf, BaseOf, Classify;
    if i < |paths| {
      var e := Push.EntryOf(s, listed.head, paths[i]);
      assert TrueRemote(v, e);
      hide TrueRemote, Push.EntryOf;
      SkippedAreListed(v, listed, s, paths, i + 1, if e.state.Conflict? then found + [e] else found);
    }
  }

  lemma PushListKeeps(v: Server, x: Client)
    requires ServerOk(v) && ClientInv(v, x)
    ensures ClientInv(v, x.(flight := Listed(v)))
  {
    hide TrueDisk, AllKept;
  }

  lemma PushBeginKeeps(v: Server, x: Client, paths: seq<Path>)
    requires NormalizeIsIdempotent() && ServerOk(v) && ClientInv(v, x) && x.flight.Listed?
    ensures ClientInv(v, BeginPush(x, paths))
  {
    hide Earlier;
    hide AllKept, TrueDisk, SendSafe, PushSafety.Guarded, Push.BatchFrom, Push.ConflictsFrom, TrueMemory,
        TrueListed, BatchMap;
    var s := Open(x.disk);
    OpenIsTrue(v, x.disk);
    var listed := x.flight.listed;
    var fs := Push.BatchFrom(s, listed.head, paths, 0, []);
    PushSafety.BatchIsGuarded(s, listed.head, paths, 0, []);
    PushSafety.BatchIsCanonical(s, listed.head, paths, 0, []);
    BatchMapIn(fs, 0);
    var batch := BatchMap(fs, 0);
    forall p | p in batch
      ensures batch[p].path == p && SendSafe(v, listed, s, batch[p])
    {
      GuardedIsSafe(v, listed, s, batch[p]);
    }
    assert TrueListed(v, []) by { NothingListed(v); }
    SkippedAreListed(v, listed, s, paths, 0, []);
    DiskKeeps(v, x, x.disk, BeginPush(x, paths).flight);
  }

  lemma NothingListed(v: Server)
    ensures TrueListed(v, [])
  {
  }

  lemma PushSendKeeps(v: Server, x: Client, p: Path, id: Sha)
    requires ServerOk(v) && ClientInv(v, x) && x.flight.Pushing? && p in x.flight.batch && id !in v.versions
        && id != NoSha
    ensures var (t, a) := Write(v, x.flight.batch[p], id);
      ServerOk(t) && Extends(v, t) && ClientInv(t, TakeAnswer(x, p, a))
  {
    hide TrueDisk, AllKept, SendSafe, TrueMemory, TrueListed;
    var f := x.flight.batch[p];
    var (t, a) := Write(v, f, id);
    WriteExtends(v, f, id);
    ClientStays(v, t, x);
    hide Write, Extends, ServerOk;
    assert f.path == p;
    var y := TakeAnswer(x, p, a);
    assert PushSafety.HonestResponse(t, x.flight.batch, y.flight.resp);
  }

  lemma {:induction false} SidecarsAreTrue(v: Server, es: seq<Push.Entry>, fetched: map<Path, Push.Fetched>, i: nat,
                                           found: seq<Push.Sidecar>)
    requires i <= |es| && TrueListed(v, es) && HonestFetched(v, fetched) && PushSafety.HonestSidecars(v, found)
    ensures PushSafety.HonestSidecars(v, Push.SidecarsFrom(es, fetched, i, found))
    decreases |es| - i
  {
    if i < |es| {
      assert TrueRemote(v, es[i]);
      var sc := Push.SidecarFor(es[i], fetched);
      assert sc.Some? ==> sc.value.path == es[i].path && IssuedFor(v, sc.value.rec.serverSha, es[i].path);
      hide Push.SidecarFor;
      SidecarsAreTrue(v, es, fetched, i + 1, if sc.Some? then found + [sc.value] else found);
    }
  }

  lemma PushEndKeeps(v: Server, x: Client, lands: Faults, fetched: map<Path, Push.Fetched>)
    requires ClientInv(v, x) && x.flight.Pushing? && HonestFetched(v, fetched)
    ensures ClientInv(v, PushDone(x, lands, fetched))
  {
    hide AllKept, TrueBases, IssuedShas, TrueSidecars, Push.ApplyAnswer, PushSafety.HonestResponse, Push.SidecarsFrom,
         SendSafe, TrueListed, HonestFetched;
    var s := OnDisk(x.flight.mem, x.disk);
    assert PushSafety.HonestSidecars(v, []);
    SidecarsAreTrue(v, x.flight.skipped, fetched, 0, []);
    var sidecars := Push.SidecarsFrom(x.flight.skipped, fetched, 0, []);
    hide PushSafety.HonestSidecars;
    PushSafety.PushKeepsBasesTrue(v, lands, s, x.flight.batch, x.flight.resp, sidecars);
    PushSafety.PushLeavesFiles(lands, s, x.flight.batch, x.flight.resp, sidecars);
    DiskKeeps(v, x, PushDone(x, lands, fetched).disk, Idle);
  }

  // ---- Repair and resolve ----

  lemma RepairBeginKeeps(v: Server, x: Client, srv: RepairPlan.Answers, acts: seq<Repair.Action>)
    requires ClientInv(v, x) && RepairSafety.HonestAnswers(v, srv)
    requires forall k | 0 <= k < |acts| ::
               RepairPlan.Grounded(Open(x.disk), srv, acts[k]) && ShaAt(x.disk.state.shas, acts[k].path) != NoSha
    ensures ClientInv(v, BeginRepair(x, acts))
  {
    hide AllKept, TrueDisk, TrueStore, TrueMemory, RepairPlan.Grounded, RepairSafety.HonestAnswers,
        RepairSafety.TrueAction;
    OpenIsTrue(v, x.disk);
    forall k | 0 <= k < |acts|
      ensures RepairSafety.TrueAction(v, acts[k])
    {
      RepairSafety.GroundedIsTrue(v, Open(x.disk), srv, acts[k]);
    }
    DiskKeeps(v, x, x.disk, BeginRepair(x, acts).flight);
  }

  lemma RepairEndKeeps(v: Server, x: Client, lands: Faults)
    requires ClientInv(v, x) && x.flight.Repairing?
    ensures ClientInv(v, RepairDone(x, lands))
  {
    hide AllKept, TrueBases, IssuedShas, TrueSidecars, Repair.ApplyPlan, RepairSafety.TrueActions;
    var s := OnDisk(x.flight.mem, x.disk);
    RepairSafety.RepairKeepsBasesTrue(v, lands, s, x.flight.acts);
    RepairSafety.RepairLeavesFiles(lands, s, x.flight.acts);
    DiskKeeps(v, x, RepairDone(x, lands).disk, RepairDone(x, lands).flight);
  }

  lemma ResolveKeeps(v: Server, x: Client, p: Path, how: Resolve.Strategy, expected: Option<Sha>, now: nat,
                     lands: Faults)
    requires ServerOk(v) && ClientInv(v, x) && p in v.head && (p, now) !in x.disk.backups
    ensures ClientInv(v, ResolveNow(v, x, p, how, expected, now, lands))
  {
    hide TrueBases, IssuedShas, TrueSidecars, Resolve.Resolved, TrueFlight, KeptOrGarbled;
    var sha := v.head[p];
    var raw := v.versions[sha].content;
    assert IssuedFor(v, sha, p);
    Resolve.ResolveKeepsBasesTrue(v, lands, Open(x.disk), p, how, expected, raw, sha, now);
    Resolve.ResolveLosesNothing(lands, Open(x.disk), p, how, expected, raw, sha, now);
    var e := ResolveNow(v, x, p, how, expected, now, lands).disk;
    forall q | q in x.typed
      ensures KeptOrGarbled(v, e, q, x.typed[q])
    {
      assert KeptOrGarbled(v, x.disk, q, x.typed[q]);
      KeptThroughResolve(v, x.disk, e, p, now, raw, q, x.typed[q]);
    }
  }

  lemma KeptThroughResolve(v: Server, d: Disk, e: Disk, p: Path, now: nat, raw: Bytes, q: Path, b: Bytes)
    requires KeptOrGarbled(v, d, q, b) && (p, now) !in d.backups
    requires e.files == d.files || e.files == d.files[p := Sanitize(raw)]
    requires e.files != d.files && p in d.files ==> (p, now) in e.backups && e.backups[(p, now)] == d.files[p]
    requires e.backups == d.backups || (p in d.files && e.backups == d.backups[(p, now) := d.files[p]])
    ensures KeptOrGarbled(v, e, q, b)
  {
    hide PullSafety.InHistory, PullSafety.GarbledIn;
    if BackedUp(d, q, b) {
      var at: nat :| (q, at) in d.backups && d.backups[(q, at)] == b;
      assert (q, at) in e.backups && e.backups[(q, at)] == b;
    }
  }

  // ---- Whole runs ----

  lemma MoveKeeps(v: Server, x: Client, a: Step)
    requires NormalizeIsIdempotent() && !a.Others? && ServerOk(v) && EnabledFor(v, x, a) && ClientInv(v, x)
    ensures var (t, y) := Move(v, x, a); ServerOk(t) && Extends(v, t) && ClientInv(t, y)
  {
    hide ClientInv, ServerOk, Extends, SaveFile, LoseFiles, PullOne, PullDone, BeginPush, BeginRepair, TakeAnswer,
         PushDone, RepairDone, ResolveNow, PullSafety.HonestDelivery, RepairSafety.HonestAnswers, RepairPlan.Grounded,
         HonestFetched, Write;
    assert Extends(v, v) by { SameServer(v); }
    match a
    case Save(_, p, content) => SaveKeeps(v, x, p, content);
    case Lose(_, b, c, st, bf, sf) => LoseKeeps(v, x, b, c, st, bf, sf);
    case OldBinary(_, p, sha) => OldBinaryKeeps(v, x, p, sha);
    case PullBegin(_, listing, delivered, paths, head) => PullBeginKeeps(v, x, listing, delivered, paths, head);
    case PullEntry(_, lands) => PullEntryKeeps(v, x, lands);
    case PullEnd(_, lands) => PullEndKeeps(v, x, lands);
    case PushList(_) => PushListKeeps(v, x);
    case PushBegin(_, paths) => PushBeginKeeps(v, x, paths);
    case PushSend(_, p, id) => PushSendKeeps(v, x, p, id);
    case PushEnd(_, lands, fetched) => PushEndKeeps(v, x, lands, fetched);
    case RepairBegin(_, srv, acts) => RepairBeginKeeps(v, x, srv, acts);
    case RepairEnd(_, lands) => RepairEndKeeps(v, x, lands);
    case ResolveAt(_, p, how, expected, now, lands) => ResolveKeeps(v, x, p, how, expected, now, lands);
    case Crash(_) => CrashKeeps(v, x);
  }

  lemma SameServer(v: Server)
    ensures Extends(v, v)
  {
  }

  lemma CrashKeeps(v: Server, x: Client)
    requires ClientInv(v, x)
    ensures ClientInv(v, x.(flight := Idle))
  {
    hide TrueDisk, AllKept;
  }

  lemma StepKeeps(w: World, a: Step)
    requires NormalizeIsIdempotent() && Inv(w) && Enabled(w, a)
    ensures Inv(Next(w, a))
  {
    hide ClientInv, ServerOk, Extends, EnabledFor, Move;
    var t := Next(w, a).server;
    if !a.Others? {
      MoveKeeps(w.server, w.clients[a.c], a);
    }
    forall c | c in w.clients && (a.Others? || c != a.c)
      ensures ClientInv(t, w.clients[c])
    {
      ClientStays(w.server, t, w.clients[c]);
    }
  }

  lemma InitInv(w: World)
    requires Init(w)
    ensures Inv(w)
  {
    hide ServerOk;
    forall c | c in w.clients
      ensures ClientInv(w.server, w.clients[c])
    {
      assert FreshClient(w.clients[c]);
    }
  }

  lemma {:induction false} RunKeeps(ws: seq<World>, steps: seq<Step>, i: nat)
    requires NormalizeIsIdempotent() && IsRun(ws, steps) && i < |ws|
    ensures Inv(ws[i])
  {
    hide Inv, Enabled, Next, Init;
    if i == 0 {
      InitInv(ws[0]);
    } else {
      RunKeeps(ws, steps, i - 1);
      StepKeeps(ws[i - 1], steps[i - 1]);
    }
  }

  /** Base truth. In every run, whatever crashed, failed, was lost or was written by others, a base that any engine
      loads as valid carries the hash of the server's version at its page_shas sha - except for a page that was pushed
      in a canonical form which the transport garbles (`Pages.IntactIff`: exactly then the base is not true). */
  lemma BasesAreTrueInEveryRun(ws: seq<World>, steps: seq<Step>, i: nat, c: ClientId, p: Path,
                               listing: Option<map<Path, Sha>>)
    requires NormalizeIsIdempotent() && IsRun(ws, steps) && i < |ws| && c in ws[i].clients
    ensures var d := ws[i].clients[c].disk; var b := Gather(Open(d), p, listing).base; var v := ws[i].server;
      b.BaseValid? ==>
        && b.sha == d.state.shas[p] && IssuedFor(v, b.sha, p)
        && (Intact(v.versions[b.sha].content, b.hash) || Garbled(v.versions[b.sha].content, b.hash))
        && (b.hash.Normal? && Wire(b.hash.page) == b.hash.page ==> Intact(v.versions[b.sha].content, b.hash))
  {
    hide IsRun, TrueFlight, AllKept;
    RunKeeps(ws, steps, i);
    var x := ws[i].clients[c];
    assert ClientInv(ws[i].server, x);
    OpenIsTrue(ws[i].server, x.disk);
    GatheredBaseIsTrue(ws[i].server, Open(x.disk), p, listing);
  }

  /** No lost update. In every run, a file the server accepts either creates a page that was absent, or replaces
      exactly the version that was the sending hub's valid base - whose content that hub had received, by its
      recorded hash. The one exception is a stale base whose page_shas value the server issued only after it answered
      the listing (`SyncLateSha` has the run). */
  lemma NoLostUpdate(ws: seq<World>, steps: seq<Step>, i: nat)
    requires NormalizeIsIdempotent() && IsRun(ws, steps) && i < |steps| && steps[i].PushSend? && ServerOk(ws[i].server)
    requires var x := ws[i].clients[steps[i].c];
      Write(ws[i].server, x.flight.batch[steps[i].p], steps[i].id).1.Accepted?
    ensures var v := ws[i].server; var p := steps[i].p; var mem := ws[i].clients[steps[i].c].flight.mem;
      || p !in v.head
      || (var b := BaseOf(mem, p);
          && (b.BaseValid? || b.BaseStale?)
          && b.sha == v.head[p] == ws[i].clients[steps[i].c].flight.batch[p].parent
          && (b.BaseValid? ==> TrueRecord(v, p, BaseRecord(b.sha, b.hash)))
          && (b.sha in ws[i].clients[steps[i].c].flight.listed.versions ==> b.BaseValid?))
  {
    hide AllKept, TrueDisk;
    RunKeeps(ws, steps, i);
    var v, x, p := ws[i].server, ws[i].clients[steps[i].c], steps[i].p;
    assert Enabled(ws[i], steps[i]) && ClientInv(v, x);
    AcceptedReplaces(v, x.flight.batch[p], steps[i].id);
    assert x.flight.batch[p].path == p && SendSafe(v, x.flight.listed, x.flight.mem, x.flight.batch[p]);
    if p in v.head {
      assert x.flight.batch[p].parent != NoSha;
      assert BaseOf(x.flight.mem, p).BaseValid? || x.flight.batch[p].parent !in x.flight.listed.versions;
    }
  }

  /** The canonical form of the page arrives as it is sent. */
  ghost predicate Travels(b: Bytes) {
    Normalize(b).Some? ==> Wire(Normalize(b).value) == Normalize(b).value
  }

  /** Nothing a user wrote is lost. In every run, what a user last saved in a page is still the working file, or has
      its canonical form in the server's history, or is byte for byte in a backup - if its canonical form travels. If
      not, there is also the chance that it was pushed and only what the transport made of it is left (`SyncGarbled`
      has the run). */
  lemma NothingSavedIsLost(ws: seq<World>, steps: seq<Step>, i: nat, c: ClientId, p: Path)
    requires NormalizeIsIdempotent() && IsRun(ws, steps) && i < |ws| && c in ws[i].clients
        && p in ws[i].clients[c].typed
    ensures var b := ws[i].clients[c].typed[p];
      && KeptOrGarbled(ws[i].server, ws[i].clients[c].disk, p, b)
      && (Travels(b) ==> Kept(ws[i].server, ws[i].clients[c].disk, p, b))
  {
    hide IsRun, TrueFlight, TrueDisk, Kept;
    RunKeeps(ws, steps, i);
    var v, b := ws[i].server, ws[i].clients[c].typed[p];
    assert ClientInv(v, ws[i].clients[c]);
    if PullSafety.GarbledIn(v, p, b) {
      var sha :| PullSafety.VersionGarbles(v, sha, p, b);
      assert HashOf(b) == Normal(Normalize(b).value) && !Travels(b);
    }
  }
}

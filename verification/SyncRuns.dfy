/** N hubs and one server: users edit, engines pull, push, resolve and repair, anything may crash or fail, index
    files may be lost, and others write to the server. What holds in every run. */
module SyncRuns {
  import opened Basics
  import opened Pages
  import opened Contract
  import opened Hub
  import Pull
  import PullSafety
  import Push
  import Resolve
  import Repair
  import RepairPlan
  import RepairSafety

  type ClientId = nat

  /** What an engine that holds a hub's lock has in memory. A push remembers the server as it was when it answered the
      listing (only its heads matter to the engine), also while it repairs bases between listing and loading. */
  datatype Flight =
    | Idle
    | Pulling(run: Pull.Run, entries: seq<Pull.Entry>, next: nat, head: Sha)
    | Listed(listed: Server)
    | Pushing(mem: Store, batch: map<Path, PushFile>, left: set<Path>, resp: Push.Response, skipped: seq<Push.Entry>,
              listed: Server)
    | Repairing(mem: Store, acts: seq<Repair.Action>, back: Option<Server>)

  /** `typed` is, for every page the user saved, what was saved last. */
  datatype Client = Client(disk: Disk, flight: Flight, typed: map<Path, Bytes>)

  datatype World = World(server: Server, clients: map<ClientId, Client>)

  datatype Step =
    // the user saves or deletes a working file
    | Save(c: ClientId, p: Path, content: Option<Bytes>)
    // index files are lost or corrupted; base and sidecar files may hold anything
    | Lose(c: ClientId, bases: bool, conflicts: bool, state: bool, baseFiles: map<Path, Bytes>,
           sidecarFiles: map<Path, Bytes>)
    // an old binary, which takes no lock, writes a page_shas value
    | OldBinary(c: ClientId, p: Path, sha: Sha)
    // anybody else writes to the server, or the repo is reset
    | Others(server: Server)
    | PullBegin(c: ClientId, listing: map<Path, Sha>, delivered: Pull.Delivery, paths: seq<Path>, head: Sha)
    | PullEntry(c: ClientId, lands: Faults)
    | PullEnd(c: ClientId, lands: Faults)
    | PushList(c: ClientId)
    | PushBegin(c: ClientId, paths: seq<Path>)
    | PushSend(c: ClientId, p: Path, id: Sha)
    | PushEnd(c: ClientId, lands: Faults, fetched: map<Path, Push.Fetched>)
    | RepairBegin(c: ClientId, srv: RepairPlan.Answers, acts: seq<Repair.Action>)
    | RepairEnd(c: ClientId, lands: Faults)
    | ResolveAt(c: ClientId, p: Path, how: Resolve.Strategy, expected: Option<Sha>, now: nat, lands: Faults)
    | Crash(c: ClientId)

  function BatchMap(fs: seq<PushFile>, i: nat): map<Path, PushFile>
    requires i <= |fs|
    decreases |fs| - i
  {
    if i == |fs| then map[] else BatchMap(fs, i + 1)[fs[i].path := fs[i]]
  }

  /** An engine step works on the hub's real disk, with its own copies of the index files. */
  function OnDisk(mem: Store, d: Disk): Store {
    mem.(disk := d)
  }

  ghost predicate HonestFetched(v: Server, fetched: map<Path, Push.Fetched>) {
    forall p | p in fetched && fetched[p].Got? && fetched[p].sha != NoSha :: IssuedFor(v, fetched[p].sha, p)
  }

  // ---- Steps ----

  ghost predicate EnabledFor(v: Server, x: Client, a: Step)
    requires !a.Others? && ServerOk(v)
  {
    match a
    case Save(_, _, _) => true
    case Lose(_, _, _, _, _, _) => true
    case OldBinary(_, _, sha) => sha in v.versions
    case PullBegin(_, listing, delivered, _, _) => x.flight.Idle? && PullSafety.HonestDelivery(v, listing, delivered)
    case PullEntry(_, _) => x.flight.Pulling? && x.flight.next < |x.flight.entries|
    case PullEnd(_, _) =>
      && x.flight.Pulling? && (x.flight.next == |x.flight.entries| || x.flight.run.stopped)
      && Pull.Shaped(x.flight.run)
    case PushList(_) => x.flight.Idle?
    case PushBegin(_, _) => x.flight.Listed?
    case PushSend(_, p, id) => x.flight.Pushing? && p in x.flight.left && p in x.flight.batch
        && id !in v.versions && id != NoSha
    case PushEnd(_, _, fetched) => x.flight.Pushing? && HonestFetched(v, fetched)
    case RepairBegin(_, srv, acts) =>
      && (x.flight.Idle? || x.flight.Listed?) && RepairSafety.HonestAnswers(v, srv)
      && forall k | 0 <= k < |acts| ::
           RepairPlan.Grounded(Open(x.disk), srv, acts[k]) && ShaAt(x.disk.state.shas, acts[k].path) != NoSha
    case RepairEnd(_, _) => x.flight.Repairing?
    // the page is on the server, and this is the only resolve of the page this second
    case ResolveAt(_, p, _, _, now, _) => x.flight.Idle? && p in v.head && (p, now) !in x.disk.backups
    case Crash(_) => true
  }

  ghost predicate Enabled(w: World, a: Step) {
    if a.Others? then ServerOk(a.server) && Extends(w.server, a.server)
    else ServerOk(w.server) && a.c in w.clients && EnabledFor(w.server, w.clients[a.c], a)
  }

  function SaveFile(x: Client, p: Path, content: Option<Bytes>): Client {
    match content
    case Some(b) => x.(disk := x.disk.(files := x.disk.files[p := b]), typed := x.typed[p := b])
    case None => x.(disk := x.disk.(files := x.disk.files - {p}), typed := x.typed - {p})
  }

  function LoseFiles(d: Disk, bases: bool, conflicts: bool, state: bool, baseFiles: map<Path, Bytes>,
                     sidecarFiles: map<Path, Bytes>): Disk {
    Disk(d.files, baseFiles, if bases then map[] else d.bases, sidecarFiles, if conflicts then map[] else d.conflicts,
         if state then SyncState(map[], NoSha) else d.state, d.backups, d.writes)
  }

  function PullOne(x: Client, lands: Faults): Client
    requires x.flight.Pulling? && x.flight.next < |x.flight.entries|
  {
    var r := x.flight.run.(store := OnDisk(x.flight.run.store, x.disk));
    var q := Pull.ApplyEntry(lands, Pull.NoEdits(), x.flight.next, x.flight.entries[x.flight.next], r);
    x.(disk := q.store.disk, flight := x.flight.(run := q, next := x.flight.next + 1))
  }

  function PullDone(x: Client, lands: Faults): Client
    requires x.flight.Pulling? && Pull.Shaped(x.flight.run)
  {
    var r := x.flight.run.(store := OnDisk(x.flight.run.store, x.disk));
    x.(disk := Pull.Finish(lands, r, x.flight.head).disk, flight := Idle)
  }

  /** Load the view, classify it against the listing, and build the batch. */
  function BeginPush(x: Client, paths: seq<Path>): Client
    requires x.flight.Listed?
  {
    var s, listed := Open(x.disk), x.flight.listed;
    var batch := BatchMap(Push.BatchFrom(s, listed.head, paths, 0, []), 0);
    x.(flight := Pushing(s, batch, batch.Keys, Push.Response([], []),
                         Push.ConflictsFrom(s, listed.head, paths, 0, []), listed))
  }

  function BeginRepair(x: Client, acts: seq<Repair.Action>): Client {
    x.(flight := Repairing(Open(x.disk), acts, if x.flight.Listed? then Some(x.flight.listed) else None))
  }

  /** The client's side of the server's answer to one file. */
  function TakeAnswer(x: Client, p: Path, a: Answer): Client
    requires x.flight.Pushing?
  {
    var resp := match a
      case Accepted(sha) => x.flight.resp.(pushed := x.flight.resp.pushed + [Push.Pushed(p, sha)])
      case Refused(sha, content) =>
        x.flight.resp.(conflicts := x.flight.resp.conflicts + [Push.Refusal(p, sha, content)]);
    x.(flight := x.flight.(left := x.flight.left - {p}, resp := resp))
  }

  function PushDone(x: Client, lands: Faults, fetched: map<Path, Push.Fetched>): Client
    requires x.flight.Pushing?
  {
    var s := OnDisk(x.flight.mem, x.disk);
    var sidecars := Push.SidecarsFrom(x.flight.skipped, fetched, 0, []);
    x.(disk := Push.ApplyAnswer(lands, s, x.flight.batch, x.flight.resp, sidecars).disk, flight := Idle)
  }

  function RepairDone(x: Client, lands: Faults): Client
    requires x.flight.Repairing?
  {
    x.(disk := Repair.ApplyPlan(lands, OnDisk(x.flight.mem, x.disk), x.flight.acts).disk,
       flight := if x.flight.back.Some? then Listed(x.flight.back.value) else Idle)
  }

  function ResolveNow(v: Server, x: Client, p: Path, how: Resolve.Strategy, expected: Option<Sha>, now: nat,
                      lands: Faults): Client
    requires ServerOk(v) && p in v.head
  {
    var sha := v.head[p];
    x.(disk := Resolve.Resolved(lands, Open(x.disk), p, how, expected, v.versions[sha].content, sha, now).store.disk)
  }

  /** The client that takes the step, and the server it leaves. */
  ghost function Move(v: Server, x: Client, a: Step): (Server, Client)
    requires !a.Others? && ServerOk(v) && EnabledFor(v, x, a)
  {
    match a
    case Save(_, p, content) => (v, SaveFile(x, p, content))
    case Lose(_, b, c, st, bf, sf) => (v, x.(disk := LoseFiles(x.disk, b, c, st, bf, sf)))
    case OldBinary(_, p, sha) => (v, x.(disk := x.disk.(state := x.disk.state.(shas := x.disk.state.shas[p := sha]))))
    case PullBegin(_, listing, delivered, paths, head) =>
      var s := Open(x.disk);
      (v, x.(flight := Pulling(Pull.Started(s), Pull.Entries(s, listing, delivered, paths), 0, head)))
    case PullEntry(_, lands) => (v, PullOne(x, lands))
    case PullEnd(_, lands) => (v, PullDone(x, lands))
    case PushList(_) => (v, x.(flight := Listed(v)))
    case PushBegin(_, paths) => (v, BeginPush(x, paths))
    case PushSend(_, p, id) =>
      var (t, ans) := Write(v, x.flight.batch[p], id);
      (t, TakeAnswer(x, p, ans))
    case PushEnd(_, lands, fetched) => (v, PushDone(x, lands, fetched))
    case RepairBegin(_, _, acts) => (v, BeginRepair(x, acts))
    case RepairEnd(_, lands) => (v, RepairDone(x, lands))
    case ResolveAt(_, p, how, expected, now, lands) => (v, ResolveNow(v, x, p, how, expected, now, lands))
    case Crash(_) => (v, x.(flight := Idle))
  }

  ghost function Next(w: World, a: Step): World
    requires Enabled(w, a)
  {
    if a.Others? then w.(server := a.server)
    else
      var (v, x) := Move(w.server, w.clients[a.c], a);
      World(v, w.clients[a.c := x])
  }

  /** Fresh hubs, whatever files their users already have, and a server with any history. */
  ghost predicate Init(w: World) {
    && ServerOk(w.server)
    && forall c | c in w.clients :: FreshClient(w.clients[c])
  }

  ghost predicate FreshClient(x: Client) {
    x.flight.Idle? && x.disk.bases == map[] && x.disk.conflicts == map[] && x.disk.state == SyncState(map[], NoSha)
    && x.typed == x.disk.files
  }

  ghost predicate IsRun(ws: seq<World>, steps: seq<Step>) {
    && |ws| == |steps| + 1 && Init(ws[0])
    && forall i | 0 <= i < |steps| :: Enabled(ws[i], steps[i]) && ws[i + 1] == Next(ws[i], steps[i])
  }
}

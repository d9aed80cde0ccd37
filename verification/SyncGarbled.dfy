/** The exception in `SyncSafety.NothingSavedIsLost` and `BasesAreTrueInEveryRun` is real: a page that holds a byte
    which is not valid UTF-8 is pushed, arrives garbled, and is replaced by a later pull as if the server had it. */
module SyncGarbled {
  import opened Basics
  import opened Pages
  import opened Contract
  import opened Hub
  import opened SyncRuns
  import Pull
  import PullSafety
  import Push
  import SyncSafety

  const OURS := Commit(1)
  const THEIRS := Commit(2)

  /** A page whose canonical form the transport changes, and a teammate's page that travels. */
  ghost predicate Case(p: Path, page: Bytes, n: Bytes, other: Bytes) {
    && WireLaws() && NormalizeIsIdempotent()
    && IsPageAt(p, page) && Normalize(page) == Some(n) && Wire(n) != n && Wire(other) == other
  }

  function AllLand(): Faults {
    n => true
  }

  function World1(server: Server, disk: Disk, flight: Flight, p: Path, page: Bytes): World {
    World(server, map[0 := Client(disk, flight, map[p := page])])
  }

  function Server0(): Server {
    Server(map[], map[], map[])
  }

  function Server1(p: Path, n: Bytes): Server {
    Server(map[OURS := Version(p, Wire(n))], map[p := OURS], map[p := OURS])
  }

  function Server2(p: Path, n: Bytes, other: Bytes): Server {
    Server(map[OURS := Version(p, Wire(n)), THEIRS := Version(p, other)], map[p := THEIRS], map[p := THEIRS])
  }

  /** Before the push, after it, and after the pull. */
  function Disk0(p: Path, page: Bytes): Disk {
    Disk(map[p := page], map[], map[], map[], map[], SyncState(map[], NoSha), map[], 0)
  }

  function Disk1(p: Path, page: Bytes, n: Bytes): Disk {
    Disk(map[p := page], map[p := n], map[p := BaseRecord(OURS, HashOf(n))], map[], map[],
         SyncState(map[p := OURS], NoSha), map[], 3)
  }

  function File(p: Path, n: Bytes): PushFile {
    PushFile(p, n, NoSha, true)
  }

  function Pushing1(p: Path, page: Bytes, n: Bytes, left: set<Path>, pushed: seq<Push.Pushed>): Flight {
    Pushing(Open(Disk0(p, page)), map[p := File(p, n)], left, Push.Response(pushed, []), [], Server0())
  }

  lemma Begins(p: Path, page: Bytes, n: Bytes, other: Bytes)
    requires Case(p, page, n, other)
    ensures var w := World1(Server0(), Disk0(p, page), Idle, p, page);
      Init(w) && Enabled(w, PushList(0))
      && Next(w, PushList(0)) == World1(Server0(), Disk0(p, page), Listed(Server0()), p, page)
  {
    hide WireLaws, NormalizeIsIdempotent;
  }

  lemma Batches(p: Path, page: Bytes, n: Bytes, other: Bytes)
    requires Case(p, page, n, other)
    ensures var s := Open(Disk0(p, page));
      Push.BatchFrom(s, map[], [p], 0, []) == [File(p, n)] && Push.ConflictsFrom(s, map[], [p], 0, []) == []
  {
    hide WireLaws, NormalizeIsIdempotent, HashOf;
    var s := Open(Disk0(p, page));
    assert Push.Sent(s, map[], p) == Some(File(p, n));
    assert !Push.EntryOf(s, map[], p).state.Conflict?;
  }

  lemma Loads(p: Path, page: Bytes, n: Bytes, other: Bytes)
    requires Case(p, page, n, other)
    ensures var w := World1(Server0(), Disk0(p, page), Listed(Server0()), p, page);
      Enabled(w, PushBegin(0, [p]))
      && Next(w, PushBegin(0, [p])) == World1(Server0(), Disk0(p, page), Pushing1(p, page, n, {p}, []), p, page)
  {
    hide WireLaws, NormalizeIsIdempotent, HashOf, Push.BatchFrom, Push.ConflictsFrom;
    Batches(p, page, n, other);
    assert BatchMap([File(p, n)], 1) == map[];
    assert BatchMap([File(p, n)], 0) == map[p := File(p, n)];
    var x := Client(Disk0(p, page), Listed(Server0()), map[p := page]);
    assert BeginPush(x, [p]).flight == Pushing1(p, page, n, {p}, []);
  }

  lemma Sends(p: Path, page: Bytes, n: Bytes, other: Bytes)
    requires Case(p, page, n, other)
    ensures var w := World1(Server0(), Disk0(p, page), Pushing1(p, page, n, {p}, []), p, page);
      var pushed := [Push.Pushed(p, OURS)];
      Enabled(w, PushSend(0, p, OURS))
      && Next(w, PushSend(0, p, OURS))
         == World1(Server1(p, n), Disk0(p, page), Pushing1(p, page, n, {}, pushed), p, page)
  {
    hide WireLaws, NormalizeIsIdempotent, HashOf;
    var x := Client(Disk0(p, page), Pushing1(p, page, n, {p}, []), map[p := page]);
    assert Write(Server0(), File(p, n), OURS) == (Server1(p, n), Accepted(OURS));
    assert {p} - {p} == {};
    assert [] + [Push.Pushed(p, OURS)] == [Push.Pushed(p, OURS)];
    assert TakeAnswer(x, p, Accepted(OURS)).flight == Pushing1(p, page, n, {}, [Push.Pushed(p, OURS)]);
  }

  lemma Records(p: Path, page: Bytes, n: Bytes, other: Bytes)
    requires Case(p, page, n, other)
    ensures var pushed := [Push.Pushed(p, OURS)];
      var w := World1(Server1(p, n), Disk0(p, page), Pushing1(p, page, n, {}, pushed), p, page);
      Enabled(w, PushEnd(0, AllLand(), map[]))
      && Next(w, PushEnd(0, AllLand(), map[])) == World1(Server1(p, n), Disk1(p, page, n), Idle, p, page)
  {
    hide WireLaws, NormalizeIsIdempotent, HashOf;
    var s := Open(Disk0(p, page));
    var sent := map[p := File(p, n)];
    var pushed := [Push.Pushed(p, OURS)];
    var x0 := Push.Progress(s, {}, map[], [], false, false);
    var x1 := Push.TakePushed(AllLand(), sent, pushed[0], x0);
    assert Push.PushedFrom(AllLand(), sent, pushed, 1, x1) == x1;
    assert Push.PushedFrom(AllLand(), sent, pushed, 0, x0) == x1;
    assert x1.order == [p] && p !in x1.store.conflicts;
    assert Push.ClearFrom(AllLand(), [p], 1, x1) == x1;
    assert Push.ClearFrom(AllLand(), [p], 0, x1) == x1;
    assert Push.Answered(AllLand(), s, sent, Push.Response(pushed, []), []) == x1;
    assert Push.SaveProgress(AllLand(), x1).disk == Disk1(p, page, n);
  }

  lemma Edits(p: Path, page: Bytes, n: Bytes, other: Bytes)
    requires Case(p, page, n, other)
    ensures var w := World1(Server1(p, n), Disk1(p, page, n), Idle, p, page);
      Enabled(w, Others(Server2(p, n, other)))
      && Next(w, Others(Server2(p, n, other))) == World1(Server2(p, n, other), Disk1(p, page, n), Idle, p, page)
  {
    hide WireLaws, NormalizeIsIdempotent, HashOf;
  }

  /** The page is classified incoming: the file is its base. */
  function Entry1(p: Path, n: Bytes, other: Bytes): Pull.Entry {
    Pull.Entry(p, Facts(LocalValid(HashOf(n)), BaseValid(OURS, HashOf(n)), RemotePresent(THEIRS), None), Incoming,
               Some(Pull.Page(Sanitize(other), THEIRS)))
  }

  function Pulling1(p: Path, page: Bytes, n: Bytes, other: Bytes): Flight {
    Pulling(Pull.Started(Open(Disk1(p, page, n))), [Entry1(p, n, other)], 0, THEIRS)
  }

  function PullStep(p: Path, other: Bytes): Step {
    PullBegin(0, map[p := THEIRS], map[p := (other, THEIRS)], [p], THEIRS)
  }

  lemma Fetches(p: Path, page: Bytes, n: Bytes, other: Bytes)
    requires Case(p, page, n, other)
    ensures var w := World1(Server2(p, n, other), Disk1(p, page, n), Idle, p, page);
      Enabled(w, PullStep(p, other))
      && Next(w, PullStep(p, other))
         == World1(Server2(p, n, other), Disk1(p, page, n), Pulling1(p, page, n, other), p, page)
  {
    assert HashOf(page) == HashOf(n) == Normal(n);
    hide WireLaws, NormalizeIsIdempotent, HashOf;
    var s := Open(Disk1(p, page, n));
    var delivered := map[p := (other, THEIRS)];
    assert Pull.EntryOf(s, map[p := THEIRS], delivered, p) == Entry1(p, n, other);
    assert Pull.Entries(s, map[p := THEIRS], delivered, [p]) == [Entry1(p, n, other)];
  }

  lemma Overwrites(p: Path, page: Bytes, n: Bytes, other: Bytes)
    requires Case(p, page, n, other)
    ensures var w := World1(Server2(p, n, other), Disk1(p, page, n), Pulling1(p, page, n, other), p, page);
      && Enabled(w, PullEntry(0, AllLand()))
      && Next(w, PullEntry(0, AllLand())).server == Server2(p, n, other)
      && 0 in Next(w, PullEntry(0, AllLand())).clients
      && Next(w, PullEntry(0, AllLand())).clients[0].typed == map[p := page]
      && Next(w, PullEntry(0, AllLand())).clients[0].disk
         == Disk1(p, page, n).(files := map[p := Sanitize(other)], writes := 4)
  {
    assert HashOf(page) == HashOf(n);
    hide WireLaws, NormalizeIsIdempotent, HashOf;
  }

  /** Nothing of the page is left. */
  lemma Gone(p: Path, page: Bytes, n: Bytes, other: Bytes)
    requires Case(p, page, n, other)
    ensures !SyncSafety.Kept(Server2(p, n, other),
                             Disk1(p, page, n).(files := map[p := Sanitize(other)], writes := 4), p, page)
  {
    var v := Server2(p, n, other);
    NotTravelling(p, page, n, other, Sanitize(other));
    forall sha
      ensures !PullSafety.VersionHolds(v, sha, p, page)
    {
      if sha in v.versions {
        var c := v.versions[sha].content;
        NotTravelling(p, page, n, other, c);
        NotTravelling(p, page, n, other, Sanitize(c));
      }
      hide WireLaws, NormalizeIsIdempotent, HashOf;
    }
    hide WireLaws, NormalizeIsIdempotent, HashOf, PullSafety.VersionHolds;
  }

  /** A text that travels is neither the page nor has its canonical form. */
  lemma NotTravelling(p: Path, page: Bytes, n: Bytes, other: Bytes, c: Bytes)
    requires Case(p, page, n, other) && (c == Wire(n) || c == other || c == Sanitize(Wire(n)) || c == Sanitize(other))
    ensures HashOf(c) != HashOf(page) && c != page
  {
    assert Wire(c) == c;
  }

  /** Push, a teammate's edit, pull: what the user saved is neither the file, nor in the server's history, nor in a
      backup. */
  lemma GarbledPageIsLost(p: Path, page: Bytes, n: Bytes, other: Bytes) returns (ws: seq<World>, steps: seq<Step>)
    requires Case(p, page, n, other)
    ensures IsRun(ws, steps) && |steps| == 7 && 0 in ws[7].clients && ws[7].clients[0].typed == map[p := page]
    ensures !SyncSafety.Kept(ws[7].server, ws[7].clients[0].disk, p, page)
  {
    hide Enabled, Next, Init, Case, SyncSafety.Kept;
    Begins(p, page, n, other);
    Loads(p, page, n, other);
    Sends(p, page, n, other);
    Records(p, page, n, other);
    Edits(p, page, n, other);
    Fetches(p, page, n, other);
    Overwrites(p, page, n, other);
    Gone(p, page, n, other);
    steps := [PushList(0), PushBegin(0, [p]), PushSend(0, p, OURS), PushEnd(0, AllLand(), map[]),
              Others(Server2(p, n, other)), PullStep(p, other), PullEntry(0, AllLand())];
    var w6 := World1(Server2(p, n, other), Disk1(p, page, n), Pulling1(p, page, n, other), p, page);
    ws := [World1(Server0(), Disk0(p, page), Idle, p, page),
           World1(Server0(), Disk0(p, page), Listed(Server0()), p, page),
           World1(Server0(), Disk0(p, page), Pushing1(p, page, n, {p}, []), p, page),
           World1(Server1(p, n), Disk0(p, page), Pushing1(p, page, n, {}, [Push.Pushed(p, OURS)]), p, page),
           World1(Server1(p, n), Disk1(p, page, n), Idle, p, page),
           World1(Server2(p, n, other), Disk1(p, page, n), Idle, p, page),
           w6, Next(w6, PullEntry(0, AllLand()))];
  }
}

/** The exception in `SyncSafety.NoLostUpdate` is real: a run in which an old binary, which takes no lock, writes a
    page_shas value between the listing and the loading of a push, and the push replaces a version its hub never
    received. */
module SyncLateSha {
  import opened Basics
  import opened Pages
  import opened Contract
  import opened Hub
  import opened SyncRuns
  import Push
  import PushSafety

  const NOBODY := Server(map[], map[], map[])
  const THEIRS := Commit(1)
  const OURS := Commit(2)

  /** A hub with one page its user wrote, and nothing else; or with a page_shas value as well. */
  function DiskWith(p: Path, page: Bytes, shas: map<Path, Sha>): Disk {
    Disk(map[p := page], map[], map[], map[], map[], SyncState(shas, NoSha), map[], 0)
  }

  function One(server: Server, p: Path, page: Bytes, shas: map<Path, Sha>, flight: Flight): World {
    World(server, map[0 := Client(DiskWith(p, page, shas), flight, map[p := page])])
  }

  /** A teammate created the page. */
  function WithTheirs(p: Path, other: Bytes): Server {
    Server(map[THEIRS := Version(p, other)], map[p := THEIRS], map[p := THEIRS])
  }

  lemma StaleShaIsBatched(p: Path, page: Bytes)
    requires IsPageAt(p, page) && Normalize(page).Some?
    ensures var s := Open(DiskWith(p, page, map[p := THEIRS]));
      && BaseOf(s, p) == BaseStale(THEIRS)
      && Push.BatchFrom(s, map[], [p], 0, []) == [PushFile(p, Normalize(page).value, THEIRS, false)]
      && Push.ConflictsFrom(s, map[], [p], 0, []) == []
  {
    hide HashOf;
    var s := Open(DiskWith(p, page, map[p := THEIRS]));
    PushSafety.StaleBaseIsSentIff(s, map[], p);
    assert Push.Sent(s, map[], p) == Some(PushFile(p, Normalize(page).value, THEIRS, false));
    assert !Push.EntryOf(s, map[], p).state.Conflict?;
  }

  /** What the push is about to send. */
  function Flying(p: Path, page: Bytes): Flight
    requires Normalize(page).Some?
  {
    Pushing(Open(DiskWith(p, page, map[p := THEIRS])),
            map[p := PushFile(p, Normalize(page).value, THEIRS, false)], {p}, Push.Response([], []), [], NOBODY)
  }

  lemma Loads(p: Path, page: Bytes, other: Bytes)
    requires IsPageAt(p, page) && Normalize(page).Some?
    ensures var w := One(WithTheirs(p, other), p, page, map[p := THEIRS], Listed(NOBODY));
      && Enabled(w, PushBegin(0, [p]))
      && Next(w, PushBegin(0, [p])) == One(WithTheirs(p, other), p, page, map[p := THEIRS], Flying(p, page))
  {
    hide HashOf, Push.BatchFrom, Push.ConflictsFrom;
    StaleShaIsBatched(p, page);
    var f := PushFile(p, Normalize(page).value, THEIRS, false);
    assert NOBODY.head == map[];
    assert BatchMap([f], 1) == map[];
    assert BatchMap([f], 0) == map[p := f];
    var x := Client(DiskWith(p, page, map[p := THEIRS]), Listed(NOBODY), map[p := page]);
    assert BeginPush(x, [p]).flight == Flying(p, page);
  }

  lemma TeammateCreates(p: Path, page: Bytes, other: Bytes)
    ensures var w := One(NOBODY, p, page, map[], Listed(NOBODY));
      && Enabled(w, Others(WithTheirs(p, other)))
      && Next(w, Others(WithTheirs(p, other))) == One(WithTheirs(p, other), p, page, map[], Listed(NOBODY))
  {
  }

  lemma Lists(p: Path, page: Bytes)
    ensures var w := One(NOBODY, p, page, map[], Idle);
      Init(w) && Enabled(w, PushList(0)) && Next(w, PushList(0)) == One(NOBODY, p, page, map[], Listed(NOBODY))
  {
  }

  lemma Records(p: Path, page: Bytes, other: Bytes)
    ensures var w := One(WithTheirs(p, other), p, page, map[], Listed(NOBODY));
      && Enabled(w, OldBinary(0, p, THEIRS))
      && Next(w, OldBinary(0, p, THEIRS)) == One(WithTheirs(p, other), p, page, map[p := THEIRS], Listed(NOBODY))
  {
  }

  lemma Sends(p: Path, page: Bytes, other: Bytes)
    requires Normalize(page).Some? && Wire(Normalize(page).value) != other
    ensures var w := One(WithTheirs(p, other), p, page, map[p := THEIRS], Flying(p, page));
      && Enabled(w, PushSend(0, p, OURS))
      && Next(w, PushSend(0, p, OURS)).server
         == Server(map[THEIRS := Version(p, other), OURS := Version(p, Wire(Normalize(page).value))], map[p := OURS],
                   map[p := OURS])
  {
  }

  /** List; the teammate creates the page; an old binary records the teammate's commit; load, classify and send. The
      server accepts the file over the teammate's version, on a base that is stale. */
  lemma LateShaIsAccepted(p: Path, page: Bytes, other: Bytes) returns (ws: seq<World>, steps: seq<Step>)
    requires IsPageAt(p, page) && Normalize(page).Some? && Wire(Normalize(page).value) != other
    ensures IsRun(ws, steps) && |steps| == 5 && steps[4] == PushSend(0, p, OURS)
    ensures ws[4] == One(WithTheirs(p, other), p, page, map[p := THEIRS], Flying(p, page))
    ensures BaseOf(Flying(p, page).mem, p) == BaseStale(THEIRS)
    ensures ws[5].server.head == map[p := OURS] && OURS in ws[5].server.versions
        && ws[5].server.versions[OURS].content == Wire(Normalize(page).value)
  {
    hide Enabled, Next, Init, BaseOf;
    Lists(p, page);
    TeammateCreates(p, page, other);
    Records(p, page, other);
    Loads(p, page, other);
    Sends(p, page, other);
    StaleShaIsBatched(p, page);
    var theirs := WithTheirs(p, other);
    steps := [PushList(0), Others(theirs), OldBinary(0, p, THEIRS), PushBegin(0, [p]), PushSend(0, p, OURS)];
    var w4 := One(theirs, p, page, map[p := THEIRS], Flying(p, page));
    ws := [One(NOBODY, p, page, map[], Idle), One(NOBODY, p, page, map[], Listed(NOBODY)),
           One(theirs, p, page, map[], Listed(NOBODY)), One(theirs, p, page, map[p := THEIRS], Listed(NOBODY)),
           w4, Next(w4, steps[4])];
  }
}

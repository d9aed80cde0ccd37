/** A hub directory and its stores (internal/syncstate base.go, conflicts.go, view.go), with every write able to
    fail. */
module Hub {
  import opened Basics
  import opened Pages
  import opened Contract

  datatype BaseRecord = BaseRecord(sha: Sha, hash: Hash)

  datatype SyncState = SyncState(shas: map<Path, Sha>, lastPull: Sha)

  /** What is on disk. An index file that is missing or does not parse reads as an empty map. */
  datatype Disk = Disk(files: map<Path, Bytes>,
                       baseFiles: map<Path, Bytes>, bases: map<Path, BaseRecord>,
                       sidecarFiles: map<Path, Bytes>, conflicts: map<Path, ConflictRecord>,
                       state: SyncState, backups: map<(Path, nat), Bytes>,
                       writes: nat)

  /** Whether the n-th write of a hub reaches its disk. A crash before write n is the case where none from n on
      does. */
  type Faults = nat -> bool

  ghost predicate NoFaults(lands: Faults) {
    forall n: nat :: lands(n)
  }

  function NeverFail(): Faults {
    n => true
  }

  /** Every write between the `from`-th and the `to`-th reached the disk. */
  ghost predicate AllLanded(lands: Faults, from: nat, to: nat) {
    forall n | from <= n < to :: lands(n)
  }

  /** A hub under its lock: the disk, and the index copies an engine holds in memory until it saves them. */
  datatype Store = Store(disk: Disk, bases: map<Path, BaseRecord>, conflicts: map<Path, ConflictRecord>,
                         state: SyncState)

  function ShaAt(shas: map<Path, Sha>, p: Path): Sha {
    if p in shas then shas[p] else NoSha
  }

  // ---- Loading ----

  function Open(d: Disk): Store {
    Store(d, d.bases, d.conflicts, d.state)
  }

  datatype Facts = Facts(local: Local, base: Base, remote: Remote, sidecar: Option<ConflictRecord>)

  function LocalOf(files: map<Path, Bytes>, p: Path): Local {
    if p !in files then LocalAbsent
    else if IsPageAt(p, files[p]) then LocalValid(HashOf(files[p]))
    else LocalInvalid
  }

  /** `Bases.Valid`. */
  predicate BaseIsValid(s: Store, p: Path, sha: Sha) {
    p in s.bases && sha != NoSha && s.bases[p].sha == sha && p in s.disk.baseFiles
  }

  /** `Bases.ReadVerified` succeeds. */
  predicate Verified(s: Store, p: Path) {
    p in s.bases && p in s.disk.baseFiles && HashOf(s.disk.baseFiles[p]) == s.bases[p].hash
  }

  function BaseOf(s: Store, p: Path): Base {
    var sha := ShaAt(s.state.shas, p);
    if sha == NoSha then BaseNone
    else if BaseIsValid(s, p, sha) then BaseValid(sha, s.bases[p].hash)
    else BaseStale(sha)
  }

  function SidecarOf(s: Store, p: Path): Option<ConflictRecord> {
    if p in s.conflicts then Some(s.conflicts[p]) else None
  }

  /** The remote side of `gather`: the listing when there is one, else a sidecar that is not the base. */
  function RemoteOf(s: Store, p: Path, listing: Option<map<Path, Sha>>): Remote {
    match listing
    case Some(l) => if p in l then RemotePresent(l[p]) else RemoteAbsent
    case None =>
      if p in s.conflicts && s.conflicts[p].serverSha != ShaAt(s.state.shas, p)
      then RemotePresent(s.conflicts[p].serverSha)
      else RemoteUnknown
  }

  function Gather(s: Store, p: Path, listing: Option<map<Path, Sha>>): Facts {
    Facts(LocalOf(s.disk.files, p), BaseOf(s, p), RemoteOf(s, p, listing), SidecarOf(s, p))
  }

  function FactsState(f: Facts): PageState {
    StateOf(f.local, f.base, f.remote, f.sidecar)
  }

  /** Everything a hub holds about one page. */
  datatype Slot = Slot(file: Option<Bytes>, base: Option<BaseRecord>, baseFile: Option<Bytes>,
                       sidecar: Option<ConflictRecord>, text: Option<Bytes>, sha: Sha)

  function At<T>(m: map<Path, T>, p: Path): Option<T> {
    if p in m then Some(m[p]) else None
  }

  function SlotOf(s: Store, p: Path): Slot {
    Slot(At(s.disk.files, p), At(s.bases, p), At(s.disk.baseFiles, p), At(s.conflicts, p), At(s.disk.sidecarFiles, p),
         ShaAt(s.state.shas, p))
  }

  /** The entries of a view, less the order. */
  function ViewEntries(s: Store, listing: Option<map<Path, Sha>>): set<Path> {
    s.disk.files.Keys + (set p | p in s.state.shas && s.state.shas[p] != NoSha)
    + match listing case Some(l) => l.Keys case None => {}
  }

  // ---- The facts of one page, as its owner can check them ----

  ghost predicate IsPage(s: Store, p: Path) {
    p in s.disk.files && IsPageAt(p, s.disk.files[p])
  }

  /** A base is stored for the page_shas value. */
  ghost predicate HasBase(s: Store, p: Path) {
    var sha := ShaAt(s.state.shas, p);
    sha != NoSha && p in s.bases && s.bases[p].sha == sha && p in s.disk.baseFiles
  }

  ghost predicate EditedSinceBase(s: Store, p: Path) {
    HasBase(s, p) && p in s.disk.files && HashOf(s.disk.files[p]) != s.bases[p].hash
  }

  /** The recorded conflict is with another commit than the page_shas value. */
  ghost predicate ConflictNamed(s: Store, p: Path) {
    p in s.conflicts && s.conflicts[p].serverSha != ShaAt(s.state.shas, p)
  }

  /** A view shows exactly the paths that have a state. */
  lemma ViewIsEntries(s: Store, listing: map<Path, Sha>, p: Path)
    ensures p in ViewEntries(s, Some(listing)) <==> !FactsState(Gather(s, p, Some(listing))).NoEntry?
  {
    hide HashOf;
  }

  /** Without a listing, a recorded conflict stands in for it; nothing else is then known of the server. */
  lemma OfflineStates(s: Store, p: Path)
    ensures var st := FactsState(Gather(s, p, None));
      if ConflictNamed(s, p) then st == FactsState(Gather(s, p, Some(map[p := s.conflicts[p].serverSha])))
      else !st.Incoming? && !st.IncomingNew? && !st.Conflict?
  {
    hide HashOf;
  }

  // ---- Writing ----

  function Tick(d: Disk): Disk {
    d.(writes := d.writes + 1)
  }

  function WriteFile(lands: Faults, s: Store, p: Path, c: Bytes): Store {
    var d := Tick(s.disk);
    s.(disk := if lands(s.disk.writes) then d.(files := d.files[p := c]) else d)
  }

  function WriteBackup(lands: Faults, s: Store, p: Path, now: nat, c: Bytes): Store {
    var d := Tick(s.disk);
    s.(disk := if lands(s.disk.writes) then d.(backups := d.backups[(p, now) := c]) else d)
  }

  function StoreBase(d: Disk, p: Path, c: Bytes): (r: Disk)
    ensures r.files == d.files && r.bases == d.bases && r.conflicts == d.conflicts && r.sidecarFiles == d.sidecarFiles
    ensures r.state == d.state && r.backups == d.backups && r.baseFiles == d.baseFiles[p := c]
  {
    Tick(d).(baseFiles := d.baseFiles[p := c])
  }

  function PutBase(lands: Faults, s: Store, p: Path, c: Bytes, sha: Sha): Store {
    if sha == NoSha then s
    else if lands(s.disk.writes)
    then Store(StoreBase(s.disk, p, c), s.bases[p := BaseRecord(sha, HashOf(c))], s.conflicts, s.state)
    else s.(disk := Tick(s.disk))
  }

  predicate PutBaseOk(lands: Faults, s: Store, sha: Sha) {
    sha != NoSha && lands(s.disk.writes)
  }

  function SaveBases(lands: Faults, s: Store): Store {
    var d := Tick(s.disk);
    s.(disk := if lands(s.disk.writes) then d.(bases := s.bases) else d)
  }

  /** `normalizeConflict`: a page without a base has no base sha. */
  function NormalizeConflict(rec: ConflictRecord, content: Bytes): ConflictRecord {
    ConflictRecord(rec.serverSha, if rec.kind.BothAdded? then NoSha else rec.baseSha, rec.kind, content != EMPTY)
  }

  /** Content is stored; without content an older file goes. */
  function StoreSidecar(d: Disk, p: Path, content: Bytes): (r: Disk)
    ensures r.files == d.files && r.bases == d.bases && r.baseFiles == d.baseFiles && r.conflicts == d.conflicts
    ensures r.state == d.state && r.backups == d.backups
  {
    Tick(d).(sidecarFiles := if content != EMPTY then d.sidecarFiles[p := content] else d.sidecarFiles - {p})
  }

  function PutConflict(lands: Faults, s: Store, p: Path, rec: ConflictRecord, content: Bytes): Store {
    if rec.serverSha == NoSha then s
    else if lands(s.disk.writes)
    then Store(StoreSidecar(s.disk, p, content), s.bases, s.conflicts[p := NormalizeConflict(rec, content)], s.state)
    else s.(disk := Tick(s.disk))
  }

  predicate PutConflictOk(lands: Faults, s: Store, rec: ConflictRecord) {
    rec.serverSha != NoSha && lands(s.disk.writes)
  }

  function ClearConflict(lands: Faults, s: Store, p: Path): Store {
    if lands(s.disk.writes)
    then Store(StoreSidecar(s.disk, p, EMPTY), s.bases, s.conflicts - {p}, s.state)
    else s.(disk := Tick(s.disk))
  }

  function SaveConflicts(lands: Faults, s: Store): Store {
    var d := Tick(s.disk);
    s.(disk := if lands(s.disk.writes) then d.(conflicts := s.conflicts) else d)
  }

  function SaveState(lands: Faults, s: Store): Store {
    var d := Tick(s.disk);
    s.(disk := if lands(s.disk.writes) then d.(state := s.state) else d)
  }

  /** An open hub. Each method changes the disk and the index copy the way the function of the same name says. */
  class OpenHub {
    const lands: Faults
    var disk: Disk
    var bases: map<Path, BaseRecord>
    var conflicts: map<Path, ConflictRecord>
    var state: SyncState

    ghost function Value(): Store
      reads this
    {
      Store(disk, bases, conflicts, state)
    }

    constructor (lands: Faults, disk: Disk)
      ensures Value() == Open(disk) && this.lands == lands
    {
      this.lands := lands;
      this.disk := disk;
      bases := disk.bases;
      conflicts := disk.conflicts;
      state := disk.state;
    }

    /** One write: true when it reached the disk. */
    method Attempt() returns (ok: bool)
      modifies this`disk
      ensures ok == lands(old(disk.writes)) && disk == Tick(old(disk))
    {
      ok := lands(disk.writes);
      disk := disk.(writes := disk.writes + 1);
    }

    method PutFile(p: Path, c: Bytes) returns (ok: bool)
      modifies this
      ensures ok == lands(old(disk.writes)) && Value() == WriteFile(lands, old(Value()), p, c)
    {
      ok := Attempt();
      if ok {
        disk := disk.(files := disk.files[p := c]);
      }
    }

    method PutBackup(p: Path, now: nat, c: Bytes) returns (ok: bool)
      modifies this
      ensures ok == lands(old(disk.writes)) && Value() == WriteBackup(lands, old(Value()), p, now, c)
    {
      ok := Attempt();
      if ok {
        disk := disk.(backups := disk.backups[(p, now) := c]);
      }
    }

    method PutBasePage(p: Path, c: Bytes, sha: Sha) returns (ok: bool)
      modifies this
      ensures ok == PutBaseOk(lands, old(Value()), sha) && Value() == PutBase(lands, old(Value()), p, c, sha)
    {
      if sha == NoSha {
        return false;
      }
      ok := Attempt();
      if ok {
        disk := disk.(baseFiles := disk.baseFiles[p := c]);
        bases := bases[p := BaseRecord(sha, HashOf(c))];
      }
    }

    method SaveBaseIndex() returns (ok: bool)
      modifies this
      ensures ok == lands(old(disk.writes)) && Value() == SaveBases(lands, old(Value()))
    {
      ok := Attempt();
      if ok {
        disk := disk.(bases := bases);
      }
    }

    method PutSidecar(p: Path, rec: ConflictRecord, content: Bytes) returns (ok: bool)
      modifies this
      ensures ok == PutConflictOk(lands, old(Value()), rec)
      ensures Value() == PutConflict(lands, old(Value()), p, rec, content)
    {
      if rec.serverSha == NoSha {
        return false;
      }
      ok := Attempt();
      if ok {
        if content != EMPTY {
          disk := disk.(sidecarFiles := disk.sidecarFiles[p := content]);
        } else {
          disk := disk.(sidecarFiles := disk.sidecarFiles - {p});
        }
        conflicts := conflicts[p := NormalizeConflict(rec, content)];
      }
    }

    method ClearSidecar(p: Path) returns (ok: bool)
      modifies this
      ensures ok == lands(old(disk.writes)) && Value() == ClearConflict(lands, old(Value()), p)
    {
      ok := Attempt();
      if ok {
        disk := disk.(sidecarFiles := disk.sidecarFiles - {p});
        conflicts := conflicts - {p};
      }
    }

    method SaveConflictIndex() returns (ok: bool)
      modifies this
      ensures ok == lands(old(disk.writes)) && Value() == SaveConflicts(lands, old(Value()))
    {
      ok := Attempt();
      if ok {
        disk := disk.(conflicts := conflicts);
      }
    }

    method SaveSyncState() returns (ok: bool)
      modifies this
      ensures ok == lands(old(disk.writes)) && Value() == SaveState(lands, old(Value()))
    {
      ok := Attempt();
      if ok {
        disk := disk.(state := state);
      }
    }
  }

  // ---- What a base says is true ----

  /** The record's hash is that of the server's version at the record's sha, as stored or as sanitized on the way
      in - or of a pushed page that the transport garbled into that version. */
  ghost predicate TrueRecord(v: Server, p: Path, rec: BaseRecord) {
    IssuedFor(v, rec.sha, p)
    && (Intact(v.versions[rec.sha].content, rec.hash) || Garbled(v.versions[rec.sha].content, rec.hash))
  }

  ghost predicate TrueBases(v: Server, bases: map<Path, BaseRecord>) {
    forall p | p in bases :: TrueRecord(v, p, bases[p])
  }

  /** Every page_shas value was issued by the server, though perhaps for another page. */
  ghost predicate IssuedShas(v: Server, shas: map<Path, Sha>) {
    forall p | p in shas :: shas[p] in v.versions
  }

  ghost predicate TrueSidecars(v: Server, conflicts: map<Path, ConflictRecord>) {
    forall p | p in conflicts :: IssuedFor(v, conflicts[p].serverSha, p)
  }

  ghost predicate TrueStore(v: Server, s: Store) {
    && TrueBases(v, s.bases) && IssuedShas(v, s.state.shas) && TrueSidecars(v, s.conflicts)
    && TrueDisk(v, s.disk)
  }

  ghost predicate TrueDisk(v: Server, d: Disk) {
    TrueBases(v, d.bases) && IssuedShas(v, d.state.shas) && TrueSidecars(v, d.conflicts)
  }

  /** The sides an engine classifies a page by tell the truth about the server. */
  lemma GatheredBaseIsTrue(v: Server, s: Store, p: Path, listing: Option<map<Path, Sha>>)
    requires TrueStore(v, s)
    ensures var b := Gather(s, p, listing).base;
      b.BaseValid? ==> b.sha == s.state.shas[p] && TrueRecord(v, p, BaseRecord(b.sha, b.hash))
  {
  }

  lemma TrueDiskExtends(v: Server, w: Server, d: Disk)
    requires TrueDisk(v, d) && Extends(v, w)
    ensures TrueDisk(w, d)
  {
  }

  lemma TrueBasesPut(v: Server, bases: map<Path, BaseRecord>, p: Path, rec: BaseRecord)
    requires TrueBases(v, bases) && TrueRecord(v, p, rec)
    ensures TrueBases(v, bases[p := rec])
  {
  }

  lemma TrueSidecarsPut(v: Server, conflicts: map<Path, ConflictRecord>, p: Path, rec: ConflictRecord)
    requires TrueSidecars(v, conflicts) && IssuedFor(v, rec.serverSha, p)
    ensures TrueSidecars(v, conflicts[p := rec])
  {
  }

  lemma PutBaseKeeps(lands: Faults, v: Server, s: Store, p: Path, c: Bytes, sha: Sha)
    requires TrueStore(v, s) && TrueRecord(v, p, BaseRecord(sha, HashOf(c)))
    ensures TrueStore(v, PutBase(lands, s, p, c, sha))
  {
    TrueBasesPut(v, s.bases, p, BaseRecord(sha, HashOf(c)));
    hide TrueBases, TrueSidecars, IssuedShas, TrueRecord, HashOf, StoreBase;
  }

  lemma PutConflictKeeps(lands: Faults, v: Server, s: Store, p: Path, rec: ConflictRecord, content: Bytes)
    requires TrueStore(v, s) && IssuedFor(v, rec.serverSha, p)
    ensures TrueStore(v, PutConflict(lands, s, p, rec, content))
  {
    TrueSidecarsPut(v, s.conflicts, p, NormalizeConflict(rec, content));
    hide TrueBases, TrueSidecars, IssuedShas, StoreSidecar;
  }

  lemma ClearConflictKeeps(lands: Faults, v: Server, s: Store, p: Path)
    requires TrueStore(v, s)
    ensures TrueStore(v, ClearConflict(lands, s, p))
  {
  }

  lemma SavesKeep(lands: Faults, v: Server, s: Store)
    requires TrueStore(v, s)
    ensures TrueStore(v, SaveBases(lands, s)) && TrueStore(v, SaveConflicts(lands, s))
    ensures TrueStore(v, SaveState(lands, s))
  {
  }

  // ---- What never touches a working file or a backup ----

  ghost predicate SameTree(s: Store, r: Store) {
    r.disk.files == s.disk.files && r.disk.backups == s.disk.backups
  }

  lemma StoreWritesLeaveTree(lands: Faults, s: Store, p: Path, c: Bytes, sha: Sha, rec: ConflictRecord)
    ensures SameTree(s, PutBase(lands, s, p, c, sha)) && SameTree(s, PutConflict(lands, s, p, rec, c))
    ensures SameTree(s, ClearConflict(lands, s, p))
  {
    hide HashOf;
  }

  lemma SavesLeaveTree(lands: Faults, s: Store)
    ensures SameTree(s, SaveBases(lands, s)) && SameTree(s, SaveConflicts(lands, s)) && SameTree(s, SaveState(lands, s))
  {
  }

  lemma PutBaseTouchesOnePage(lands: Faults, s: Store, p: Path, c: Bytes, sha: Sha, q: Path)
    requires q != p
    ensures SlotOf(PutBase(lands, s, p, c, sha), q) == SlotOf(s, q)
  {
    hide HashOf;
  }

  lemma ClearConflictTouchesOnePage(lands: Faults, s: Store, p: Path, q: Path)
    requires q != p
    ensures SlotOf(ClearConflict(lands, s, p), q) == SlotOf(s, q)
  {
  }

  lemma WriteFileTouchesOnePage(lands: Faults, s: Store, p: Path, c: Bytes, q: Path)
    requires q != p
    ensures SlotOf(WriteFile(lands, s, p, c), q) == SlotOf(s, q)
  {
  }

  /** Saving an index changes nothing about a page. */
  lemma SavesKeepSlots(lands: Faults, s: Store, p: Path)
    ensures SlotOf(SaveBases(lands, s), p) == SlotOf(s, p) && SlotOf(SaveConflicts(lands, s), p) == SlotOf(s, p)
    ensures SlotOf(SaveState(lands, s), p) == SlotOf(s, p)
  {
  }

  /** What a put reports: success means that the page now has that base or that sidecar, failure that it has the one it
      had; and nothing is ever stored under an empty sha. */
  lemma PutsAreReported(lands: Faults, s: Store, p: Path, c: Bytes, sha: Sha, rec: ConflictRecord)
    ensures var t, u := SlotOf(s, p), SlotOf(PutBase(lands, s, p, c, sha), p);
      if PutBaseOk(lands, s, sha)
      then sha != NoSha && u == t.(base := Some(BaseRecord(sha, HashOf(c))), baseFile := Some(c))
      else u == t && (sha == NoSha || !lands(s.disk.writes))
    ensures var t, u := SlotOf(s, p), SlotOf(PutConflict(lands, s, p, rec, c), p);
      if PutConflictOk(lands, s, rec) then
        && rec.serverSha != NoSha
        && u == t.(sidecar := Some(ConflictRecord(rec.serverSha, if rec.kind.BothAdded? then NoSha else rec.baseSha,
                                                  rec.kind, c != EMPTY)),
                   text := if c == EMPTY then None else Some(c))
      else u == t && (rec.serverSha == NoSha || !lands(s.disk.writes))
  {
    hide HashOf;
  }
}

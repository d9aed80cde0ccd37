/** What a conflict sidecar's file holds when not every write reached the disk: the file goes first, the record that
    names its version in conflicts.json follows (internal/syncstate/conflicts.go). */
module Sidecars {
  import opened Basics
  import opened Pages
  import opened Contract
  import opened Hub
  import opened Repair

  /** The file holds the version its record names, or some version while the recorded one is not the current one. */
  ghost predicate SidecarSound(v: Server, d: Disk, p: Path) {
    p in d.conflicts && d.conflicts[p].hasContent && p in d.sidecarFiles ==>
      exists k :: IssuedFor(v, k, p) && d.sidecarFiles[p] == Sanitize(v.versions[k].content)
                  && (k == d.conflicts[p].serverSha || Head(v, p) != d.conflicts[p].serverSha)
  }

  /** The record on disk has content and names the current version, whose text is another one than `content`. */
  ghost predicate RecordsAnother(v: Server, d: Disk, p: Path, content: Bytes) {
    && p in d.conflicts && d.conflicts[p].hasContent && p in v.head && v.head[p] == d.conflicts[p].serverSha
    && v.head[p] in v.versions && content != Sanitize(v.versions[v.head[p]].content)
  }

  /** A sidecar file written without its record - the process ends here - is sound exactly when it is not written over
      a record of the current version with another text. */
  lemma SidecarWriteIsSoundIff(v: Server, lands: Faults, s: Store, p: Path, rec: ConflictRecord, content: Bytes)
    requires ServerOk(v) && TrueDisk(v, s.disk) && lands(s.disk.writes)
    requires IssuedFor(v, rec.serverSha, p) && content == Sanitize(v.versions[rec.serverSha].content)
    ensures SidecarSound(v, PutConflict(lands, s, p, rec, content).disk, p)
            <==> content == EMPTY || !RecordsAnother(v, s.disk, p, content)
  {
    hide TrueBases, IssuedShas, HashOf;
    var d := PutConflict(lands, s, p, rec, content).disk;
    assert d.conflicts == s.disk.conflicts;
    if content != EMPTY && p in s.disk.conflicts && s.disk.conflicts[p].hasContent {
      var r := s.disk.conflicts[p].serverSha;
      assert d.sidecarFiles[p] == content && IssuedFor(v, r, p);
      if Head(v, p) == r {
        assert p in v.head;
        if content == Sanitize(v.versions[r].content) {
          assert SidecarSound(v, d, p);
        }
      } else {
        assert SidecarSound(v, d, p);
      }
    }
  }

  /** Once conflicts.json is saved too, it is sound. */
  lemma SavedSidecarIsSound(v: Server, lands: Faults, s: Store, p: Path, rec: ConflictRecord, content: Bytes)
    requires NoFaults(lands) && IssuedFor(v, rec.serverSha, p) && ServerOk(v)
    requires content == Sanitize(v.versions[rec.serverSha].content)
    ensures SidecarSound(v, SaveConflicts(lands, PutConflict(lands, s, p, rec, content)).disk, p)
  {
    hide HashOf;
    assert IssuedFor(v, rec.serverSha, p);
  }

  /** A sidecar of a version that was current at a time when the record on disk had been issued - as those of push and
      pull are, which hold the lock from before they ask the server: a crash does no harm. */
  lemma FreshSidecarIsSound(v: Server, w: Server, lands: Faults, s: Store, p: Path, rec: ConflictRecord, content: Bytes)
    requires ServerOk(v) && ServerOk(w) && Extends(w, v) && TrueDisk(w, s.disk) && lands(s.disk.writes)
    requires p in w.head && rec.serverSha == w.head[p] && content == Sanitize(w.versions[rec.serverSha].content)
    ensures SidecarSound(v, PutConflict(lands, s, p, rec, content).disk, p)
  {
    TrueDiskExtends(w, v, s.disk);
    assert IssuedFor(v, rec.serverSha, p) && content == Sanitize(v.versions[rec.serverSha].content);
    SidecarWriteIsSoundIff(v, lands, s, p, rec, content);
    hide TrueDisk, HashOf;
  }

  /** Repair's sidecar is of the version at page_shas, which may be an old one. When the repair is interrupted between
      the file and conflicts.json, and the record on disk names the current version, the old text stands under it. */
  lemma RepairCrashIsUnsound(v: Server, s: Store, p: Path, raw: Bytes, at: Sha)
    requires ServerOk(v) && Open(s.disk) == s
    requires var a := Decide(s, p, raw, at); a.sidecar.Some? && at != NoSha
    requires Sanitize(raw) != EMPTY && RecordsAnother(v, s.disk, p, Sanitize(raw))
    ensures var d := ApplyPlan(n => n == s.disk.writes, s, [Decide(s, p, raw, at)]).disk;
      && d.conflicts == s.disk.conflicts && p in d.sidecarFiles && d.sidecarFiles[p] == Sanitize(raw)
      && !SidecarSound(v, d, p)
  {
    var a := Decide(s, p, raw, at);
    var lands: Faults := n => n == s.disk.writes;
    assert a.base.None? && a.sidecar.value.0.serverSha == at && a.sidecar.value.1 == Sanitize(raw);
    hide HashOf, Decide;
    var x0 := Applied(s, true, false, false);
    var x1 := ApplySidecarOf(lands, a, x0);
    assert KeptFrom(s.disk.state.shas, [a], 1, [a]) == [a];
    assert KeptFrom(s.disk.state.shas, [a], 0, []) == [a];
    assert ApplyBases(lands, [a], 1, x0) == x0;
    assert ApplyBases(lands, [a], 0, x0) == x0;
    assert ApplySidecars(lands, [a], 1, x1) == x1;
    assert ApplySidecars(lands, [a], 0, x0) == x1;
    assert !ApplyStores(lands, s, [a]).ok;
    var d := ApplyPlan(lands, s, [a]).disk;
    assert d.sidecarFiles[p] == Sanitize(raw) && d.conflicts == s.disk.conflicts;
  }
}

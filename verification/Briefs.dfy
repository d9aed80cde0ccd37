/** ctx_push resolved=[P] (internal/mcp/tools.go steps 4-5) and the brief registry (internal/mcp/merge.go). */
module Briefs {
  import opened Basics
  import opened Pages
  import opened Contract
  import opened Hub
  import opened Sidecars
  import Resolve

  /** The answer to a ReadPage: the page is gone, the request failed, or a version with its sha. */
  datatype Read = Gone | Failed | Got(raw: Bytes, sha: Sha)

  /** One resolve: the hub on disk and the server then, the answers to its ReadPage and to the one of a fresh brief,
      the second, and which writes succeed. Between two resolves of one call anything may happen to the hub and the
      server. */
  datatype Moment = Moment(disk: Disk, server: Server, first: Read, second: Read, now: nat, lands: Faults)

  datatype Outcome = Rebased(sha: Sha) | AsIs | Brief(sha: Sha) | Denied

  type Registry = map<Path, Sha>

  /** The sha resolved=[P] may be re-based onto: that of the last brief shown, else that of the recorded sidecar. */
  function Known(reg: Registry, d: Disk, p: Path): Option<Sha> {
    if p in reg then Some(reg[p])
    else if p in d.conflicts then Some(d.conflicts[p].serverSha)
    else None
  }

  /** `mergeItemFor`: the sha of a base that is valid and verifies. */
  function AncestorSha(d: Disk, p: Path): Sha {
    var sha := ShaAt(d.state.shas, p);
    if BaseIsValid(Open(d), p, sha) && Verified(Open(d), p) then sha else NoSha
  }

  /** `resolveForPush`: what it does to the hub, to the registry, and what becomes of the page. */
  function ResolveForPush(reg: Registry, p: Path, m: Moment): (Store, Registry, Outcome) {
    var s := Open(m.disk);
    match m.first
    case Failed => (s, reg, Denied)
    case Gone => (s, reg, AsIs)
    case Got(raw, sha) =>
      var known := Known(reg, m.disk, p);
      if known.None? then
        (s, reg, if sha == AncestorSha(m.disk, p) then AsIs else Brief(sha))
      else
        var r := Resolve.Resolved(m.lands, s, p, Resolve.Ours, known, raw, sha, m.now);
        match r.error
        case None => (r.store, reg - {p}, Rebased(sha))
        case Some(Stale) => (r.store, reg, if m.second.Got? then Brief(m.second.sha) else Denied)
        case Some(NotResolvable(st)) => (r.store, reg, if st in {Modified, New, Unchanged} then AsIs else Denied)
        case Some(_) => (r.store, reg, Denied)
  }

  /** Step 4 of one ctx_push call. */
  datatype Call = Call(reg: Registry, paths: set<Path>, briefs: map<Path, Sha>, rebased: map<Path, Sha>, denied: bool)

  function TakeOutcome(x: Call, p: Path, reg: Registry, o: Outcome): Call {
    match o
    case Rebased(sha) => Call(reg, x.paths + {p}, x.briefs, x.rebased[p := sha], x.denied)
    case AsIs => Call(reg, x.paths + {p}, x.briefs, x.rebased, x.denied)
    case Brief(sha) => Call(reg, x.paths - {p}, x.briefs[p := sha], x.rebased, x.denied)
    case Denied => x.(denied := true)
  }

  function ResolveFrom(resolved: seq<Path>, ms: seq<Moment>, i: nat, x: Call): Call
    requires i <= |resolved| == |ms|
    decreases |resolved| - i
  {
    if i == |resolved| || x.denied then x
    else
      var (_, reg, o) := ResolveForPush(x.reg, resolved[i], ms[i]);
      ResolveFrom(resolved, ms, i + 1, TakeOutcome(x, resolved[i], reg, o))
  }

  /** Step 4, from the changed paths of step 1. What it sends is `paths`, unless the call was denied. */
  function ResolveAll(reg: Registry, changed: set<Path>, resolved: seq<Path>, ms: seq<Moment>): Call
    requires |resolved| == |ms|
  {
    ResolveFrom(resolved, ms, 0, Call(reg, changed, map[], map[], false))
  }

  /** An item of a MERGE_REQUIRED brief. */
  datatype Item = Item(path: Path, sha: Sha, server: Bytes)

  /** The agent is shown the server version of the page. */
  predicate Shows(it: Item) {
    it.sha != NoSha && it.server != EMPTY
  }

  /** `serverVersion`: the sidecar's content when it records that sha, else the version at that sha, else - an old
      server, or a failed read - the current one; `at` and `current` are the answers to the two reads. */
  function ServerVersion(d: Disk, p: Path, sha: Sha, at: Read, current: Read): Bytes {
    if p in d.conflicts && d.conflicts[p].serverSha == sha && d.conflicts[p].hasContent && p in d.sidecarFiles
    then d.sidecarFiles[p]
    else if sha != NoSha && at.Got? then Sanitize(at.raw)
    else if current.Got? then Sanitize(current.raw)
    else EMPTY
  }

  function RenderFrom(items: seq<Item>, i: nat, reg: Registry): Registry
    requires i <= |items|
    decreases |items| - i
  {
    if i == |items| then reg
    else RenderFrom(items, i + 1, if Shows(items[i]) then reg[items[i].path := items[i].sha] else reg)
  }

  // ---- The server process ----

  /** `briefSHAs` of one project. */
  class BriefRegistry {
    var shas: map<Path, Sha>

    constructor ()
      ensures shas == map[]
    {
      shas := map[];
    }

    method Record(p: Path, sha: Sha)
      modifies this
      ensures shas == old(shas)[p := sha]
    {
      shas := shas[p := sha];
    }

    method Forget(p: Path)
      modifies this
      ensures shas == old(shas) - {p}
    {
      shas := shas - {p};
    }

    /** `renderBrief`. */
    method Render(items: seq<Item>)
      modifies this
      ensures shas == RenderFrom(items, 0, old(shas))
    {
      var i := 0;
      while i < |items|
        invariant i <= |items| && RenderFrom(items, i, shas) == RenderFrom(items, 0, old(shas))
      {
        if Shows(items[i]) {
          Record(items[i].path, items[i].sha);
        }
        i := i + 1;
      }
    }

    method ResolvePage(hub: Hub.OpenHub, p: Path, m: Moment) returns (o: Outcome)
      requires hub.Value() == Open(m.disk) && hub.lands == m.lands
      modifies this, hub
      ensures (hub.Value(), shas, o) == ResolveForPush(old(shas), p, m)
    {
      match m.first
      case Failed => o := Denied;
      case Gone => o := AsIs;
      case Got(raw, sha) =>
        var known := Known(shas, hub.disk, p);
        if known.None? {
          o := if sha == AncestorSha(hub.disk, p) then AsIs else Brief(sha);
          return;
        }
        var error := Resolve.RunResolve(hub, p, Resolve.Ours, known, raw, sha, m.now);
        if error.None? {
          Forget(p);
          o := Rebased(sha);
        } else if error.value.Stale? {
          o := if m.second.Got? then Brief(m.second.sha) else Denied;
        } else if error.value.NotResolvable? && error.value.state in {Modified, New, Unchanged} {
          o := AsIs;
        } else {
          o := Denied;
        }
    }

    /** Step 4 of `toolPush`. */
    method ResolvePages(changed: set<Path>, resolved: seq<Path>, ms: seq<Moment>)
      returns (paths: set<Path>, briefs: map<Path, Sha>, ghost rebased: map<Path, Sha>, denied: bool)
      requires |resolved| == |ms|
      modifies this
      ensures Call(shas, paths, briefs, rebased, denied) == ResolveAll(old(shas), changed, resolved, ms)
    {
      paths, briefs, rebased, denied := changed, map[], map[], false;
      var i := 0;
      while i < |resolved| && !denied
        invariant i <= |resolved|
        invariant ResolveFrom(resolved, ms, i, Call(shas, paths, briefs, rebased, denied))
               == ResolveAll(old(shas), changed, resolved, ms)
      {
        var p := resolved[i];
        var hub := new Hub.OpenHub(ms[i].lands, ms[i].disk);
        ghost var x := Call(shas, paths, briefs, rebased, denied);
        var o := ResolvePage(hub, p, ms[i]);
        match o {
          case Rebased(sha) =>
            paths := paths + {p};
            rebased := rebased[p := sha];
          case AsIs => paths := paths + {p};
          case Brief(sha) =>
            briefs := briefs[p := sha];
            paths := paths - {p};
          case Denied => denied := true;
        }
        i := i + 1;
      }
    }
  }

  // ---- One resolved page ----

  /** A page is re-based only onto the sha that was known for it, and only when that is the server's current one; a
      page that gets a fresh brief instead is not touched at all. */
  lemma OnePageIsGuarded(reg: Registry, p: Path, m: Moment)
    ensures var (s, after, o) := ResolveForPush(reg, p, m);
      && (o.Rebased? ==>
            m.first.Got? && o.sha == m.first.sha && Known(reg, m.disk, p) == Some(o.sha) && after == reg - {p})
      && (!o.Rebased? ==> after == reg)
      && (o.Brief? ==> s == Open(m.disk))
      && (m.first.Got? && Known(reg, m.disk, p).Some? && Known(reg, m.disk, p).value != m.first.sha
          ==> s == Open(m.disk) && (o.Brief? || o.Denied?)
              && (m.second.Got? && m.first.sha != NoSha ==> o == Brief(m.second.sha)))
  {
    hide Resolve.Record, Resolve.TakeTheirs, AncestorSha, Resolve.Rebasable, Resolve.FactsAt;
    if m.first.Got? {
      Resolve.RecordFailsOnlyByWriting(m.lands, Open(m.disk),
        Resolve.Target(p, m.first.sha, Sanitize(m.first.raw), p in m.disk.conflicts));
    }
  }

  /** What becomes of a page when no write fails. A failed read denies the call; a page gone from the server, or known
      to nobody at the sha of its verified base, is sent as it is, and one known to nobody at another sha needs a brief.
      When the server is not where the page is known to be, there is a fresh brief. When it is, the page is re-based
      exactly if `--ours` applies; else it is sent as it is if its base is the server's version, and otherwise the call
      is denied. */
  lemma OutcomeIs(reg: Registry, p: Path, m: Moment)
    requires NoFaults(m.lands)
    ensures var s := Open(m.disk); var o := ResolveForPush(reg, p, m).2; var at := ShaAt(m.disk.state.shas, p);
      var verified := HasBase(s, p) && HashOf(m.disk.baseFiles[p]) == m.disk.bases[p].hash;
      var known := if p in reg then reg[p] else if p in m.disk.conflicts then m.disk.conflicts[p].serverSha else NoSha;
      && (m.first.Failed? ==> o == Denied)
      && (m.first.Gone? ==> o == AsIs)
      && (m.first.Got? && p !in reg && p !in m.disk.conflicts ==>
            o == if m.first.sha == (if verified then at else NoSha) then AsIs else Brief(m.first.sha))
      && (m.first.Got? && (p in reg || p in m.disk.conflicts) ==>
            o == if m.first.sha == NoSha then Denied
                 else if known != m.first.sha then (if m.second.Got? then Brief(m.second.sha) else Denied)
                 else if Resolve.OursApplies(s, p, known) then Rebased(known)
                 else if IsPage(s, p) && HasBase(s, p) && at == known then AsIs
                 else Denied)
  {
    var s := Open(m.disk);
    if m.first.Got? && Known(reg, m.disk, p).Some? {
      var known := Known(reg, m.disk, p);
      Resolve.ResolveOutcome(m.lands, s, p, Resolve.Ours, known, m.first.raw, m.first.sha, m.now);
      Resolve.RefusalTouchesNothing(m.lands, s, p, Resolve.Ours, known, m.first.raw, m.first.sha, m.now);
      if !Resolve.OursApplies(s, p, m.first.sha) {
        RefusedStates(s, p, m.first.sha);
      }
    }
    hide Resolve.Resolved, Resolve.OursApplies, Resolve.Settled, SlotOf, HashOf, FactsState, Resolve.FactsAt;
  }

  lemma RefusedStates(s: Store, p: Path, sha: Sha)
    requires !Resolve.OursApplies(s, p, sha)
    ensures FactsState(Resolve.FactsAt(s, p, sha)) in {Modified, New, Unchanged}
            <==> IsPage(s, p) && HasBase(s, p) && ShaAt(s.state.shas, p) == sha
  {
    hide HashOf;
  }

  /** When nothing fails the re-based page has exactly the version just read as its base, and its file is untouched. */
  lemma RebasedOntoRead(reg: Registry, p: Path, m: Moment)
    requires NoFaults(m.lands) && ResolveForPush(reg, p, m).2.Rebased?
    ensures var (s, _, o) := ResolveForPush(reg, p, m);
      BaseOf(s, p) == BaseValid(o.sha, HashOf(Sanitize(m.first.raw))) && s.disk.files == m.disk.files
  {
    hide Resolve.KeepOurs, Resolve.TakeTheirs, AncestorSha, HashOf, BaseOf;
    Resolve.OursRebases(m.lands, Open(m.disk), p, Known(reg, m.disk, p), m.first.raw, m.first.sha, m.now);
  }

  // ---- One call ----

  /** The page was re-based onto a sha the registry held when the call began, or a sidecar held at its turn. */
  ghost predicate Backed(reg: Registry, resolved: seq<Path>, ms: seq<Moment>, p: Path, sha: Sha)
    requires |resolved| == |ms|
  {
    || (p in reg && reg[p] == sha)
    || exists i :: 0 <= i < |resolved| && resolved[i] == p && p in ms[i].disk.conflicts
                   && ms[i].disk.conflicts[p].serverSha == sha
  }

  /** The resolve of the page read the server at that sha. */
  ghost predicate WasRead(resolved: seq<Path>, ms: seq<Moment>, p: Path, sha: Sha)
    requires |resolved| == |ms|
  {
    exists i :: 0 <= i < |resolved| && resolved[i] == p && ms[i].first.Got? && ms[i].first.sha == sha
  }

  ghost predicate InFirst(ps: seq<Path>, i: nat, p: Path)
    requires i <= |ps|
  {
    exists j :: 0 <= j < i && ps[j] == p
  }

  lemma FirstMore(ps: seq<Path>, i: nat, p: Path)
    requires i < |ps|
    ensures InFirst(ps, i + 1, p) <==> InFirst(ps, i, p) || ps[i] == p
  {
  }

  ghost predicate CallInv(reg: Registry, resolved: seq<Path>, ms: seq<Moment>, i: nat, x: Call)
    requires i <= |resolved| == |ms|
  {
    && (forall p | p in x.reg :: p in reg && x.reg[p] == reg[p])
    && (forall p | p in x.rebased ::
          && Backed(reg, resolved, ms, p, x.rebased[p]) && WasRead(resolved, ms, p, x.rebased[p])
          && InFirst(resolved, i, p))
    && (forall p | p in x.briefs :: p !in x.paths && p !in x.rebased && InFirst(resolved, i, p))
  }

  lemma NotBefore(ps: seq<Path>, i: nat)
    requires i < |ps| && Distinct(ps)
    ensures !InFirst(ps, i, ps[i])
  {
  }

  /** One more resolved page. */
  lemma CallStep(reg: Registry, resolved: seq<Path>, ms: seq<Moment>, i: nat, x: Call, after: Registry, o: Outcome)
    requires i < |resolved| == |ms| && Distinct(resolved) && CallInv(reg, resolved, ms, i, x)
    requires o.Rebased? ==> Backed(reg, resolved, ms, resolved[i], o.sha) && WasRead(resolved, ms, resolved[i], o.sha)
    requires forall p | p in after :: p in x.reg && after[p] == x.reg[p]
    ensures o.Denied? || CallInv(reg, resolved, ms, i + 1, TakeOutcome(x, resolved[i], after, o))
  {
    hide InFirst, Backed, WasRead, Distinct;
    var p := resolved[i];
    NotBefore(resolved, i);
    assert p !in x.briefs && p !in x.rebased;
    forall q
      ensures InFirst(resolved, i + 1, q) <==> InFirst(resolved, i, q) || q == p
    {
      FirstMore(resolved, i, q);
    }
  }

  lemma {:induction false} CallKeeps(reg: Registry, resolved: seq<Path>, ms: seq<Moment>, i: nat, x: Call)
    requires i <= |resolved| == |ms| && Distinct(resolved) && CallInv(reg, resolved, ms, i, x)
    ensures exists j :: i <= j <= |resolved| && CallInv(reg, resolved, ms, j, ResolveFrom(resolved, ms, i, x))
    decreases |resolved| - i
  {
    hide ResolveForPush, Known, CallInv, TakeOutcome, Backed, WasRead;
    if i < |resolved| && !x.denied {
      OnePageIsGuarded(x.reg, resolved[i], ms[i]);
      var (_, after, o) := ResolveForPush(x.reg, resolved[i], ms[i]);
      if o.Rebased? {
        StillKnown(reg, resolved, ms, i, x);
        KnownIsBacked(reg, x.reg, resolved, ms, i, o.sha);
        ReadHere(resolved, ms, i);
      }
      CallStep(reg, resolved, ms, i, x, after, o);
      var y := TakeOutcome(x, resolved[i], after, o);
      if o.Denied? {
        DeniedStops(reg, resolved, ms, i, x, after);
        assert ResolveFrom(resolved, ms, i, x) == y && CallInv(reg, resolved, ms, i, y);
      } else {
        CallKeeps(reg, resolved, ms, i + 1, y);
        var j: nat :| i + 1 <= j <= |resolved| && CallInv(reg, resolved, ms, j, ResolveFrom(resolved, ms, i + 1, y));
        assert ResolveFrom(resolved, ms, i, x) == ResolveFrom(resolved, ms, i + 1, y);
        assert CallInv(reg, resolved, ms, j, ResolveFrom(resolved, ms, i, x));
      }
    } else {
      assert ResolveFrom(resolved, ms, i, x) == x && CallInv(reg, resolved, ms, i, x);
    }
  }

  lemma StillKnown(reg: Registry, resolved: seq<Path>, ms: seq<Moment>, i: nat, x: Call)
    requires i <= |resolved| == |ms| && CallInv(reg, resolved, ms, i, x)
    ensures forall p | p in x.reg :: p in reg && x.reg[p] == reg[p]
  {
  }

  lemma DeniedStops(reg: Registry, resolved: seq<Path>, ms: seq<Moment>, i: nat, x: Call, after: Registry)
    requires i < |resolved| == |ms| && CallInv(reg, resolved, ms, i, x)
    ensures var y := TakeOutcome(x, resolved[i], after, Denied);
      CallInv(reg, resolved, ms, i, y) && ResolveFrom(resolved, ms, i + 1, y) == y
  {
    hide InFirst, Backed, WasRead;
  }

  lemma ReadHere(resolved: seq<Path>, ms: seq<Moment>, i: nat)
    requires i < |resolved| == |ms| && ms[i].first.Got?
    ensures WasRead(resolved, ms, resolved[i], ms[i].first.sha)
  {
  }

  lemma KnownIsBacked(reg: Registry, now: Registry, resolved: seq<Path>, ms: seq<Moment>, i: nat, sha: Sha)
    requires i < |resolved| == |ms| && (forall p | p in now :: p in reg && now[p] == reg[p])
    requires Known(now, ms[i].disk, resolved[i]) == Some(sha)
    ensures Backed(reg, resolved, ms, resolved[i], sha)
  {
  }

  /** One ctx_push call re-bases a page only onto a sha a brief or a sidecar had given for it; and a page that needs
      a fresh brief is neither re-based nor sent. */
  lemma CallIsGuarded(reg: Registry, changed: set<Path>, resolved: seq<Path>, ms: seq<Moment>)
    requires |resolved| == |ms| && Distinct(resolved)
    ensures var x := ResolveAll(reg, changed, resolved, ms);
      && (forall p | p in x.reg :: p in reg && x.reg[p] == reg[p])
      && (forall p | p in x.rebased ::
            Backed(reg, resolved, ms, p, x.rebased[p]) && WasRead(resolved, ms, p, x.rebased[p]))
      && (forall p | p in x.briefs :: p !in x.paths && p !in x.rebased)
  {
    hide ResolveFrom, InFirst, Backed, WasRead;
    CallKeeps(reg, resolved, ms, 0, Call(reg, changed, map[], map[], false));
  }

  /** The call so far has done with the first `i` resolved pages what their outcomes say. */
  ghost predicate Settled(reg: Registry, changed: set<Path>, resolved: seq<Path>, ms: seq<Moment>, i: nat, x: Call)
    requires i <= |resolved| == |ms|
  {
    && !x.denied
    && (forall p :: p in x.paths <==> (p in changed || p in resolved[..i]) && p !in x.briefs)
    && (forall p | p in x.briefs || p in x.rebased :: p in resolved[..i])
    && (forall k | 0 <= k < i :: Taken(reg, resolved[k], ms[k], x))
    && (forall k | i <= k < |resolved| :: resolved[k] in x.reg <==> resolved[k] in reg)
    && (forall p | p in x.reg :: p in reg && x.reg[p] == reg[p])
  }

  /** The call has this page's outcome. */
  ghost predicate Taken(reg: Registry, p: Path, m: Moment, x: Call) {
    var o := ResolveForPush(reg, p, m).2;
    && !o.Denied?
    && (p in x.rebased <==> o.Rebased?) && (o.Rebased? ==> x.rebased[p] == o.sha && p !in x.reg)
    && (p in x.briefs <==> o.Brief?) && (o.Brief? ==> x.briefs[p] == o.sha)
    && (!o.Rebased? ==> (p in x.reg <==> p in reg))
  }

  /** What becomes of a page depends on what the registry holds for it alone. */
  lemma OwnEntry(reg: Registry, now: Registry, p: Path, m: Moment)
    requires (p in now <==> p in reg) && (p in reg ==> now[p] == reg[p])
    ensures ResolveForPush(now, p, m).2 == ResolveForPush(reg, p, m).2
    ensures ResolveForPush(now, p, m).1 in {now, now - {p}}
    ensures ResolveForPush(now, p, m).1 == if ResolveForPush(now, p, m).2.Rebased? then now - {p} else now
  {
    hide Resolve.Resolved, AncestorSha;
  }

  /** An outcome of one page leaves those of the others. */
  lemma TakenStays(reg: Registry, q: Path, m: Moment, x: Call, p: Path, after: Registry, o: Outcome)
    requires q != p && Taken(reg, q, m, x) && !o.Denied? && after == if o.Rebased? then x.reg - {p} else x.reg
    ensures Taken(reg, q, m, TakeOutcome(x, p, after, o))
  {
    hide ResolveForPush;
  }

  lemma TakenNow(reg: Registry, p: Path, m: Moment, x: Call, after: Registry)
    requires var o := ResolveForPush(reg, p, m).2; !o.Denied? && after == if o.Rebased? then x.reg - {p} else x.reg
    requires p !in x.rebased && p !in x.briefs && (p in x.reg <==> p in reg)
    ensures Taken(reg, p, m, TakeOutcome(x, p, after, ResolveForPush(reg, p, m).2))
  {
    hide ResolveForPush;
  }

  lemma OneOfEach(ps: seq<Path>, i: nat)
    requires i < |ps| && Distinct(ps)
    ensures ps[i] !in ps[..i] && ps[..i + 1] == ps[..i] + [ps[i]]
    ensures forall k | 0 <= k < |ps| && k != i :: ps[k] != ps[i]
  {
  }

  lemma SettledStep(reg: Registry, changed: set<Path>, resolved: seq<Path>, ms: seq<Moment>, i: nat, x: Call)
    requires i < |resolved| == |ms| && Distinct(resolved) && Settled(reg, changed, resolved, ms, i, x)
    requires !ResolveForPush(reg, resolved[i], ms[i]).2.Denied?
    ensures var (_, after, o) := ResolveForPush(x.reg, resolved[i], ms[i]);
      Settled(reg, changed, resolved, ms, i + 1, TakeOutcome(x, resolved[i], after, o))
  {
    hide ResolveForPush, Taken, Distinct;
    var p := resolved[i];
    OneOfEach(resolved, i);
    OwnEntry(reg, x.reg, p, ms[i]);
    var (_, after, o) := ResolveForPush(x.reg, p, ms[i]);
    var y := TakeOutcome(x, p, after, o);
    forall k | 0 <= k < i
      ensures Taken(reg, resolved[k], ms[k], y)
    {
      TakenStays(reg, resolved[k], ms[k], x, p, after, o);
    }
    TakenNow(reg, p, ms[i], x, after);
  }

  /** Exactly what one call does. It is denied exactly when some resolved page is. Otherwise it sends the changed and
      the resolved pages that need no brief - as they are, or re-based -, and each resolved page is re-based, gets a
      brief or is sent as it is, as `OutcomeIs` says by what the registry held for it when the call began. */
  lemma CallOutcome(reg: Registry, changed: set<Path>, resolved: seq<Path>, ms: seq<Moment>)
    requires |resolved| == |ms| && Distinct(resolved)
    ensures var x := ResolveAll(reg, changed, resolved, ms);
      if exists k :: 0 <= k < |resolved| && ResolveForPush(reg, resolved[k], ms[k]).2.Denied? then x.denied
      else Settled(reg, changed, resolved, ms, |resolved|, x)
  {
    hide Settled, ResolveForPush;
    assert Settled(reg, changed, resolved, ms, 0, Call(reg, changed, map[], map[], false)) by {
      NothingSettled(reg, changed, resolved, ms);
    }
    CallSettles(reg, changed, resolved, ms, 0, Call(reg, changed, map[], map[], false));
  }

  lemma NothingSettled(reg: Registry, changed: set<Path>, resolved: seq<Path>, ms: seq<Moment>)
    requires |resolved| == |ms|
    ensures Settled(reg, changed, resolved, ms, 0, Call(reg, changed, map[], map[], false))
  {
  }

  lemma {:induction false} CallSettles(reg: Registry, changed: set<Path>, resolved: seq<Path>, ms: seq<Moment>, i: nat,
                                       x: Call)
    requires i <= |resolved| == |ms| && Distinct(resolved) && Settled(reg, changed, resolved, ms, i, x)
    ensures var y := ResolveFrom(resolved, ms, i, x);
      if exists k :: i <= k < |resolved| && ResolveForPush(reg, resolved[k], ms[k]).2.Denied? then y.denied
      else Settled(reg, changed, resolved, ms, |resolved|, y)
    decreases |resolved| - i
  {
    hide ResolveForPush, Settled;
    SettledMeans(reg, changed, resolved, ms, i, x);
    if i < |resolved| {
      OwnEntry(reg, x.reg, resolved[i], ms[i]);
      var (_, after, o) := ResolveForPush(x.reg, resolved[i], ms[i]);
      if !o.Denied? {
        SettledStep(reg, changed, resolved, ms, i, x);
        CallSettles(reg, changed, resolved, ms, i + 1, TakeOutcome(x, resolved[i], after, o));
      } else {
        assert ResolveForPush(reg, resolved[i], ms[i]).2.Denied?;
      }
    }
  }

  lemma SettledMeans(reg: Registry, changed: set<Path>, resolved: seq<Path>, ms: seq<Moment>, i: nat, x: Call)
    requires i <= |resolved| == |ms| && Settled(reg, changed, resolved, ms, i, x)
    ensures !x.denied
    ensures i < |resolved| ==>
            && (resolved[i] in x.reg <==> resolved[i] in reg)
            && (resolved[i] in reg ==> x.reg[resolved[i]] == reg[resolved[i]])
  {
  }

  /** What rendering a brief records: of the items of a page that name a sha and show something the last one, and of
      other pages what was there. */
  lemma {:induction false} RenderRecords(items: seq<Item>, i: nat, reg: Registry, p: Path)
    requires i <= |items|
    ensures var r := RenderFrom(items, i, reg);
      && (forall k | i <= k < |items| && Displays(items[k], p)
                     && (forall j | k < j < |items| :: !Displays(items[j], p)) ::
            p in r && r[p] == items[k].sha)
      && ((forall k | i <= k < |items| :: !Displays(items[k], p)) ==>
            (p in r <==> p in reg) && (p in reg ==> r[p] == reg[p]))
    decreases |items| - i
  {
    if i < |items| {
      RenderRecords(items, i + 1, if Shows(items[i]) then reg[items[i].path := items[i].sha] else reg, p);
    }
  }

  ghost predicate Displays(it: Item, p: Path) {
    it.path == p && it.sha != NoSha && it.server != EMPTY
  }

  // ---- Whole runs of one server process ----

  /** An item of a brief, with what it was made from: the hub, the server, and the answers to its reads. */
  datatype Glimpse = Glimpse(item: Item, server: Server, disk: Disk, at: Read, current: Read)

  datatype Event =
    | Show(glimpses: seq<Glimpse>)
    | PushCall(changed: set<Path>, resolved: seq<Path>, ms: seq<Moment>)

  predicate WellFormed(e: Event) {
    e.PushCall? ==> |e.resolved| == |e.ms| && Distinct(e.resolved)
  }

  function Items(gs: seq<Glimpse>): (r: seq<Item>)
    ensures |r| == |gs| && forall k | 0 <= k < |gs| :: r[k] == gs[k].item
  {
    seq(|gs|, k requires 0 <= k < |gs| => gs[k].item)
  }

  function After(events: seq<Event>, n: nat): Registry
    requires n <= |events| && forall i | 0 <= i < |events| :: WellFormed(events[i])
  {
    if n == 0 then map[]
    else
      var reg := After(events, n - 1);
      match events[n - 1]
      case Show(gs) => RenderFrom(Items(gs), 0, reg)
      case PushCall(changed, resolved, ms) => ResolveAll(reg, changed, resolved, ms).reg
  }

  // ---- What an honest server and an honest hub show ----

  /** When the sidecar's file is of some version at all, a brief under the current sha is right exactly when the
      sidecar is sound (see `Sidecars` for the one engine that can leave an unsound one). */
  lemma BriefIsRightIff(v: Server, d: Disk, p: Path, k: Sha, at: Read, current: Read)
    requires ServerOk(v) && p in v.head && IssuedFor(v, k, p)
    requires p in d.conflicts && d.conflicts[p].hasContent && d.conflicts[p].serverSha == v.head[p]
    requires p in d.sidecarFiles && d.sidecarFiles[p] == Sanitize(v.versions[k].content)
    ensures SidecarSound(v, d, p)
            <==> ServerVersion(d, p, v.head[p], at, current) == Sanitize(v.versions[v.head[p]].content)
  {
    assert IssuedFor(v, v.head[p], p);
  }

  ghost predicate HonestGlimpse(g: Glimpse) {
    var p, sha, v := g.item.path, g.item.sha, g.server;
    && ServerOk(v) && IssuedFor(v, sha, p) && SidecarSound(v, g.disk, p)
    && g.item.server == ServerVersion(g.disk, p, sha, g.at, g.current)
    && (g.at.Got? ==> g.at.raw == v.versions[sha].content)
    && (g.current.Got? ==>
          && p in v.head && g.current.sha == v.head[p]
          && g.current.raw == v.versions[v.head[p]].content)
  }

  /** A brief shows the version at its sha when the sidecar records that sha with its content, and that is the current
      one, or when the version could be read at the sha; else the current one; and nothing only when both reads
      failed. */
  lemma BriefShows(g: Glimpse)
    requires HonestGlimpse(g)
    ensures var p, sha, d, v := g.item.path, g.item.sha, g.disk, g.server;
      var recorded := p in d.conflicts && d.conflicts[p].serverSha == sha && d.conflicts[p].hasContent
                      && p in d.sidecarFiles;
      && ((recorded && Head(v, p) == sha) || (!recorded && g.at.Got?) ==>
            g.item.server == Sanitize(v.versions[sha].content))
      && (!recorded && !g.at.Got? ==>
            g.item.server == if g.current.Got? then Sanitize(v.versions[Head(v, p)].content) else EMPTY)
  {
  }

  /** ReadPage answers with the current version. */
  ghost predicate HonestMoment(p: Path, m: Moment) {
    && ServerOk(m.server)
    && (m.first.Got? ==>
          && p in m.server.head && m.first.sha == m.server.head[p]
          && m.first.raw == m.server.versions[m.first.sha].content)
  }

  ghost predicate HonestEvent(e: Event)
    requires WellFormed(e)
  {
    match e
    case Show(gs) => forall g | g in gs :: HonestGlimpse(g)
    case PushCall(_, resolved, ms) => forall i | 0 <= i < |ms| :: HonestMoment(resolved[i], ms[i])
  }

  /** The server only moves on from one event to a later one. */
  ghost predicate InOrder(e: Event, f: Event) {
    e.Show? && f.PushCall? ==> forall g, m | g in e.glimpses && m in f.ms :: Extends(g.server, m.server)
  }

  ghost predicate History(events: seq<Event>) {
    && (forall i | 0 <= i < |events| :: WellFormed(events[i]) && HonestEvent(events[i]))
    && (forall i, j | 0 <= i < j < |events| :: InOrder(events[i], events[j]))
  }

  /** Some brief of the first `n` events showed the agent the server version of `p` under `sha`; and whatever was shown
      under that sha was `bytes`. */
  ghost predicate WasShown(events: seq<Event>, n: nat, p: Path, sha: Sha, bytes: Bytes)
    requires n <= |events|
  {
    && (exists i :: 0 <= i < n && ShowsIn(events[i], p, sha))
    && (forall i, g | 0 <= i < n && events[i].Show? && g in events[i].glimpses && ShownAs(g, p, sha) ::
          g.item.server == bytes)
  }

  predicate ShownAs(g: Glimpse, p: Path, sha: Sha) {
    Shows(g.item) && g.item.path == p && g.item.sha == sha
  }

  ghost predicate ShowsIn(e: Event, p: Path, sha: Sha) {
    e.Show? && exists g :: g in e.glimpses && ShownAs(g, p, sha)
  }

  lemma {:induction false} RenderedWasShown(gs: seq<Glimpse>, i: nat, reg: Registry, p: Path)
    requires i <= |gs| && p in RenderFrom(Items(gs), i, reg)
    ensures var r := RenderFrom(Items(gs), i, reg);
      (p in reg && r[p] == reg[p]) || ShowsIn(Show(gs), p, r[p])
    decreases |gs| - i
  {
    if i < |gs| {
      var it := Items(gs)[i];
      RenderedWasShown(gs, i + 1, if Shows(it) then reg[it.path := it.sha] else reg, p);
      assert Shows(it) ==> gs[i] in gs && ShownAs(gs[i], it.path, it.sha);
    }
  }

  lemma {:induction false} RegistryWasShown(events: seq<Event>, n: nat, p: Path)
    requires n <= |events| && (forall i | 0 <= i < |events| :: WellFormed(events[i])) && p in After(events, n)
    ensures exists i :: 0 <= i < n && ShowsIn(events[i], p, After(events, n)[p])
  {
    hide ResolveAll, RenderFrom, ShowsIn;
    if n > 0 {
      var reg := After(events, n - 1);
      match events[n - 1]
      case Show(gs) =>
        RenderedWasShown(gs, 0, reg, p);
        if !ShowsIn(events[n - 1], p, After(events, n)[p]) {
          RegistryWasShown(events, n - 1, p);
        }
      case PushCall(changed, resolved, ms) =>
        assert WellFormed(events[n - 1]);
        CallIsGuarded(reg, changed, resolved, ms);
        RegistryWasShown(events, n - 1, p);
    }
  }

  /** When a page is still at the sha of an earlier brief, what that brief showed was this very version, whichever of
      the three sources it came from: had the server moved on before the brief was made, it could not be back. */
  lemma ShownIsCurrent(g: Glimpse, p: Path, m: Moment)
    requires HonestGlimpse(g) && HonestMoment(p, m) && Extends(g.server, m.server)
    requires m.first.Got? && ShownAs(g, p, m.first.sha)
    ensures g.item.server == Sanitize(m.first.raw)
  {
    var sha, v := m.first.sha, g.server;
    assert v.head[p] == sha && m.first.raw == v.versions[sha].content;
  }

  /** In every run of agents, teammates and CLI commands: ctx_push resolved=[P] re-bases P only onto a server sha that
      an earlier brief showed the agent - and then every brief that gave this sha printed exactly the bytes P is
      re-based onto - or that the page's recorded sidecar holds at that moment. */
  lemma OnlyShownVersionsAreSuperseded(events: seq<Event>, n: nat, p: Path)
    requires n < |events| && History(events) && events[n].PushCall?
    requires p in ResolveAll(After(events, n), events[n].changed, events[n].resolved, events[n].ms).rebased
    ensures var e := events[n]; var sha := ResolveAll(After(events, n), e.changed, e.resolved, e.ms).rebased[p];
      exists i :: 0 <= i < |e.resolved| && e.resolved[i] == p && e.ms[i].first.Got? && e.ms[i].first.sha == sha
        && (WasShown(events, n, p, sha, Sanitize(e.ms[i].first.raw))
            || (p in e.ms[i].disk.conflicts && e.ms[i].disk.conflicts[p].serverSha == sha))
  {
    hide ResolveAll, HonestGlimpse, HonestMoment, Extends, Shows;
    var e := events[n];
    assert WellFormed(e) && HonestEvent(e);
    CallIsGuarded(After(events, n), e.changed, e.resolved, e.ms);
    var sha := ResolveAll(After(events, n), e.changed, e.resolved, e.ms).rebased[p];
    var i :| 0 <= i < |e.resolved| && e.resolved[i] == p && e.ms[i].first.Got? && e.ms[i].first.sha == sha;
    forall j, g | 0 <= j < n && events[j].Show? && g in events[j].glimpses && ShownAs(g, p, sha)
      ensures g.item.server == Sanitize(e.ms[i].first.raw)
    {
      assert InOrder(events[j], e) && HonestEvent(events[j]) && e.ms[i] in e.ms;
      ShownIsCurrent(g, p, e.ms[i]);
    }
    if p in After(events, n) && After(events, n)[p] == sha {
      RegistryWasShown(events, n, p);
      assert WasShown(events, n, p, sha, Sanitize(e.ms[i].first.raw));
    } else {
      var k :| 0 <= k < |e.resolved| && e.resolved[k] == p && p in e.ms[k].disk.conflicts
               && e.ms[k].disk.conflicts[p].serverSha == sha;
      assert k == i;
    }
  }
}

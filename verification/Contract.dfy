/** The page-state decision table of internal/syncops/contract/classify.go and the sidecar overlay of overlay.go. */
module Contract {
  import opened Basics
  import opened Pages

  datatype Local = LocalAbsent | LocalInvalid | LocalValid(hash: Hash)
  datatype Base = BaseNone | BaseValid(sha: Sha, hash: Hash) | BaseStale(sha: Sha)
  datatype Remote = RemoteUnknown | RemoteAbsent | RemotePresent(sha: Sha)

  datatype Kind = BothModified | BothAdded

  datatype PageState = NoEntry | Invalid | DeletedLocal | IncomingNew | New | Unverified
                     | Unchanged | Modified | Incoming | Conflict(kind: Kind)

  function BaseSha(b: Base): Sha {
    if b.BaseNone? then NoSha else b.sha
  }

  predicate RemoteMoved(b: Base, r: Remote) {
    r.RemotePresent? && !b.BaseNone? && r.sha != b.sha
  }

  function Classify(l: Local, b: Base, r: Remote): PageState {
    match l
    case LocalInvalid => Invalid
    case LocalAbsent =>
      if !b.BaseNone? then DeletedLocal
      else if r.RemotePresent? then IncomingNew
      else NoEntry
    case LocalValid(hash) =>
      match b
      case BaseNone => if r.RemotePresent? then Conflict(BothAdded) else New
      case BaseStale(_) => if r.RemoteAbsent? then New else Unverified
      case BaseValid(_, baseHash) =>
        if r.RemoteAbsent? then New
        else if !RemoteMoved(b, r) then (if hash == baseHash then Unchanged else Modified)
        else if hash == baseHash then Incoming
        else Conflict(BothModified)
  }

  datatype ConflictRecord = ConflictRecord(serverSha: Sha, baseSha: Sha, kind: Kind, hasContent: bool)

  function ApplySidecar(st: PageState, b: Base, sidecar: Option<ConflictRecord>): PageState {
    match sidecar
    case None => st
    case Some(rec) => if rec.serverSha == BaseSha(b) || !st.Modified? then st else Conflict(rec.kind)
  }

  function StateOf(l: Local, b: Base, r: Remote, sidecar: Option<ConflictRecord>): PageState {
    ApplySidecar(Classify(l, b, r), b, sidecar)
  }

  /** Every state, from the four facts: `atBase` - the server is not known to be anywhere but at the valid base;
      `moved` - it is at another commit; `edited` - the file is not that base; `named` - a sidecar names a commit other
      than it. */
  lemma StatesAre(l: Local, b: Base, r: Remote, sidecar: Option<ConflictRecord>)
    ensures var st := StateOf(l, b, r, sidecar);
      var atBase := l.LocalValid? && b.BaseValid? && !r.RemoteAbsent? && (r.RemotePresent? ==> r.sha == b.sha);
      var moved := l.LocalValid? && b.BaseValid? && r.RemotePresent? && r.sha != b.sha;
      var edited := l.LocalValid? && b.BaseValid? && l.hash != b.hash;
      var named := b.BaseValid? && sidecar.Some? && sidecar.value.serverSha != b.sha;
      && (st.NoEntry? <==> l.LocalAbsent? && b.BaseNone? && !r.RemotePresent?)
      && (st.Invalid? <==> l.LocalInvalid?)
      && (st.DeletedLocal? <==> l.LocalAbsent? && !b.BaseNone?)
      && (st.IncomingNew? <==> l.LocalAbsent? && b.BaseNone? && r.RemotePresent?)
      && (st.New? <==> l.LocalValid? && if b.BaseNone? then !r.RemotePresent? else r.RemoteAbsent?)
      && (st.Unverified? <==> l.LocalValid? && b.BaseStale? && !r.RemoteAbsent?)
      && (st.Unchanged? <==> atBase && !edited)
      && (st.Modified? <==> atBase && edited && !named)
      && (st.Incoming? <==> moved && !edited)
      && (st == Conflict(BothAdded) <==>
            || (l.LocalValid? && b.BaseNone? && r.RemotePresent?)
            || (atBase && edited && named && sidecar.value.kind == BothAdded))
      && (st == Conflict(BothModified) <==>
            || (moved && edited)
            || (atBase && edited && named && sidecar.value.kind == BothModified))
  {
  }

  /** A page is sent only when it has no base at all, or when the server does not list it at another commit. */
  lemma SentStates(l: Local, b: Base, r: Remote, sidecar: Option<ConflictRecord>)
    ensures StateOf(l, b, r, sidecar) in {Modified, New} <==>
            && l.LocalValid?
            && (b.BaseNone? ==> !r.RemotePresent?)
            && (b.BaseStale? ==> r.RemoteAbsent?)
            && (b.BaseValid? ==>
                  || r.RemoteAbsent?
                  || (!RemoteMoved(b, r) && l.hash != b.hash && (sidecar.None? || sidecar.value.serverSha == b.sha)))
  {
  }

  /** A page is overwritten only when its file is its base and the server moved past that base. */
  lemma OverwrittenStates(l: Local, b: Base, r: Remote, sidecar: Option<ConflictRecord>)
    ensures StateOf(l, b, r, sidecar).Incoming? <==>
            l.LocalValid? && b.BaseValid? && l.hash == b.hash && RemoteMoved(b, r)
  {
  }
}

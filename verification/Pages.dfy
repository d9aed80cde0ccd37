/** Pages, their comparison form, and the server they are shared through. */
module Pages {
  import opened Basics

  /** Page paths and file contents are opaque: nothing below looks inside them. */
  type Path(==, !new)
  type Bytes(==, !new, 0)

  const EMPTY: Bytes

  /** A commit id; NoSha is the empty string of the wire format. */
  datatype Sha = NoSha | Commit(id: nat)

  /** The canonical form of a page, if it has one; module Canonical is about what it computes. */
  const Normalize: Bytes -> Option<Bytes>

  /** `schema.SanitizeContent`. */
  const Sanitize: Bytes -> Bytes

  /** What arrives of a text that travels as a JSON string: every byte that is not valid UTF-8 is replaced by U+FFFD.
      Pushed files and pulled batches travel so; single reads and the content of a refusal do not. */
  const Wire: Bytes -> Bytes

  /** The file parses and validates, and its frontmatter places it at this path. */
  const IsPageAt: (Path, Bytes) -> bool

  /** The sha-256 of the canonical form, or of the bytes themselves under another prefix; sha-256 is taken to be
      injective. */
  datatype Hash = Normal(page: Bytes) | Raw(bytes: Bytes)

  function HashOf(b: Bytes): Hash {
    match Normalize(b)
    case Some(n) => Normal(n)
    case None => Raw(b)
  }

  /** What `Normalize` promises: its results are their own canonical form. */
  ghost predicate NormalizeIsIdempotent() {
    forall b: Bytes | Normalize(b).Some? :: Normalize(Normalize(b).value) == Normalize(b)
  }

  /** Texts that are valid UTF-8 arrive as they are, sanitizing makes such texts (and replaces what travelling would),
      and the canonical form of one is one. */
  ghost predicate WireLaws() {
    && (forall c: Bytes :: Wire(Wire(c)) == Wire(c) && Wire(Sanitize(c)) == Sanitize(c))
    && (forall c: Bytes :: Sanitize(Wire(c)) == Sanitize(c))
    && (forall c: Bytes | Wire(c) == c && Normalize(c).Some? :: Wire(Normalize(c).value) == Normalize(c).value)
  }

  /** The hash is that of the content, as it is or sanitized. */
  ghost predicate Intact(content: Bytes, hash: Hash) {
    hash == HashOf(content) || hash == HashOf(Sanitize(content))
  }

  /** The hash is that of a canonical form which the transport turned into this content. */
  ghost predicate Garbled(content: Bytes, hash: Hash) {
    hash.Normal? && content == Wire(hash.page) != hash.page
  }

  /** Exactly the pages that arrive as they were sent have their own hash on the server. */
  lemma IntactIff(c: Bytes)
    requires WireLaws() && Normalize(c) == Some(c)
    ensures Intact(Wire(c), HashOf(c)) <==> Wire(c) == c
    ensures Garbled(Wire(c), HashOf(c)) <==> Wire(c) != c
  {
    var w := Wire(c);
    assert Wire(w) == w && Wire(Sanitize(w)) == Sanitize(w);
  }

  // ---- The server ----

  datatype Version = Version(path: Path, content: Bytes)

  /** Every commit ever made touches one page and is never changed; `last` is the last commit of each page that ever
      existed, and `head` that of each page that exists. A deletion is a commit without content. */
  datatype Server = Server(versions: map<Sha, Version>, last: map<Path, Sha>, head: map<Path, Sha>)

  datatype PushFile = PushFile(path: Path, content: Bytes, parent: Sha, expectAbsent: bool)

  datatype Answer = Accepted(sha: Sha) | Refused(sha: Sha, content: Bytes)

  ghost predicate ServerOk(s: Server) {
    && NoSha !in s.versions
    && (forall p | p in s.head :: p in s.last && s.last[p] == s.head[p])
    && (forall p | p in s.last :: IssuedFor(s, s.last[p], p))
    && (forall p | p in s.last && p !in s.head :: s.versions[s.last[p]].content == EMPTY)
  }

  /** `sha` is a commit of page `p`. */
  predicate IssuedFor(s: Server, sha: Sha, p: Path) {
    sha in s.versions && s.versions[sha].path == p
  }

  /** The sha and the bytes of one answer belong together. */
  predicate Honest(s: Server, p: Path, sha: Sha, content: Bytes) {
    sha in s.versions && s.versions[sha] == Version(p, content)
  }

  /** The same for an answer that is going to be sanitized, so that it may have travelled as JSON. */
  predicate Faithful(s: Server, p: Path, sha: Sha, content: Bytes) {
    IssuedFor(s, sha, p) && Sanitize(content) == Sanitize(s.versions[sha].content)
  }

  function Head(s: Server, p: Path): Sha {
    if p in s.head then s.head[p] else NoSha
  }

  function Last(s: Server, p: Path): Sha {
    if p in s.last then s.last[p] else NoSha
  }

  /** `WriteWithOptions` on what arrived of the file; a write that changes something gets the commit id `id`. */
  function Write(s: Server, f: PushFile, id: Sha): (Server, Answer)
    requires ServerOk(s)
  {
    var cur := Last(s, f.path);
    var content := if f.path in s.head then s.versions[cur].content else EMPTY;
    if f.expectAbsent && f.path in s.head then (s, Refused(cur, content))
    else if !f.expectAbsent && f.parent != NoSha && cur != NoSha && f.parent != cur then (s, Refused(cur, content))
    else if f.path in s.head && content == Wire(f.content) then (s, Accepted(cur))
    else
      var versions := s.versions[id := Version(f.path, Wire(f.content))];
      (Server(versions, s.last[f.path := id], s.head[f.path := id]), Accepted(id))
  }

  /** Nothing the server ever committed is changed or forgotten, and a commit that is no longer a page's last
      never becomes it again. */
  ghost predicate Extends(s: Server, t: Server) {
    && (forall sha | sha in s.versions :: sha in t.versions && t.versions[sha] == s.versions[sha])
    && (forall p | p in t.head :: t.head[p] in s.versions ==> p in s.head && s.head[p] == t.head[p])
    && (forall p | p in t.last :: t.last[p] in s.versions ==> p in s.last && s.last[p] == t.last[p])
  }

  lemma ExtendsTransitive(s: Server, t: Server, u: Server)
    requires Extends(s, t) && Extends(t, u)
    ensures Extends(s, u)
  {
  }

  lemma WriteExtends(s: Server, f: PushFile, id: Sha)
    requires ServerOk(s) && id !in s.versions && id != NoSha
    ensures var (t, a) := Write(s, f, id);
      && ServerOk(t) && Extends(s, t)
      && (a.Accepted? ==> Head(t, f.path) == a.sha && Honest(t, f.path, a.sha, Wire(f.content)))
      && (a.Refused? ==> t == s && f.path in s.last && Honest(s, f.path, a.sha, a.content))
  {
  }

  /** The compare-and-set: what an accepted write replaces. A write on top of a version does not bring back a page
      that was deleted since. */
  lemma AcceptedReplaces(s: Server, f: PushFile, id: Sha)
    requires ServerOk(s) && id !in s.versions && id != NoSha
    requires Write(s, f, id).1.Accepted?
    ensures f.expectAbsent ==> f.path !in s.head
    ensures !f.expectAbsent && f.parent != NoSha ==> f.path !in s.last || s.last[f.path] == f.parent
    ensures !f.expectAbsent && f.parent != NoSha && f.path in s.head ==> s.head[f.path] == f.parent
  {
  }

  /** Exactly when a write is accepted, and that it makes no commit when nothing changes. No other page is touched. */
  lemma AcceptedIff(s: Server, f: PushFile, id: Sha)
    requires ServerOk(s) && id !in s.versions && id != NoSha
    ensures var (t, a) := Write(s, f, id); var p := f.path;
      && (a.Accepted? <==> if f.expectAbsent then p !in s.head
                           else f.parent == NoSha || p !in s.last || f.parent == s.last[p])
      && (t == s <==> a.Refused? || (p in s.head && s.versions[s.head[p]].content == Wire(f.content)))
      && (t != s ==> a == Accepted(id))
      && (forall q | q != p :: Head(t, q) == Head(s, q) && Last(t, q) == Last(s, q))
  {
    var (t, a) := Write(s, f, id);
    if a == Accepted(id) {
      assert id in t.versions;
    }
  }
}

/** The canonical form of a page: internal/syncstate/canonical.go over ParsePage and SerializePage of
    internal/schema/frontmatter.go. The YAML of the frontmatter is opaque; its framing and the line endings are
    not. */
module Canonical {
  import opened Basics
  import opened Lines

  /** A decoded YAML block. */
  type Frontmatter(!new)

  const Decode: string -> Option<Frontmatter>
  const Encode: Frontmatter -> Option<string>

  const BOM: char := '\U{FEFF}'
  const MAX_PASSES: nat := 64

  // ---- The text operations of the source ----

  function StripBom(s: string): string {
    if s != "" && s[0] == BOM then s[1..] else s
  }

  /** A line "---" ends at `i + 5`, after the line feed at `i`. */
  predicate ClosesAt(s: string, i: nat) {
    i + 5 <= |s| && s[i] == '\n' && s[i + 1] == '-' && s[i + 2] == '-' && s[i + 3] == '-' && s[i + 4] == '\n'
  }

  /** `strings.Index(s, "\n---\n")`, from position `i` on. */
  function Closing(s: string, i: nat): (r: Option<nat>)
    requires i <= |s|
    ensures r.Some? ==> i <= r.value && ClosesAt(s, r.value)
    decreases |s| - i
  {
    if i == |s| then None else if ClosesAt(s, i) then Some(i) else Closing(s, i + 1)
  }

  predicate EndsWithDelim(s: string) {
    var n := |s|;
    n >= 4 && s[n - 4] == '\n' && s[n - 3] == '-' && s[n - 2] == '-' && s[n - 1] == '-'
  }

  // ---- One pass ----

  datatype Page = Page(fm: Frontmatter, body: string)

  predicate Opens(s: string) {
    |s| >= 4 && s[0] == '-' && s[1] == '-' && s[2] == '-' && s[3] == '\n'
  }

  /** What stands between the delimiters, and after them. */
  function Frame(s: string): Option<(string, string)> {
    if !Opens(s) then None
    else
      var rest := s[4..];
      match Closing(rest, 0)
      case Some(i) => Some((rest[..i], rest[i + 5..]))
      case None => if EndsWithDelim(rest) then Some((rest[..|rest| - 4], "")) else None
  }

  function ParsePage(data: string): Option<Page> {
    match Frame(Collapse(StripBom(data)))
    case None => None
    case Some((block, body)) =>
      match Decode(block)
      case None => None
      case Some(fm) => Some(Page(fm, body))
  }

  function Written(yaml: string, body: string): string {
    "---\n" + yaml + "---\n" + body
  }

  function SerializePage(p: Page): Option<string> {
    match Encode(p.fm)
    case None => None
    case Some(yaml) => Some(Written(yaml, Collapse(p.body)))
  }

  function Pass(cur: string): Option<string> {
    match ParsePage(cur)
    case None => None
    case Some(p) => SerializePage(p)
  }

  /** The passes left to find a fixed point. */
  function Settle(cur: string, passes: nat): Option<string>
    decreases passes, cur
  {
    if passes == 0 then None
    else
      match Pass(cur)
      case None => None
      case Some(next) => if next == cur then Some(next) else Settle(next, passes - 1)
  }

  function Normalize(b: string): Option<string> {
    Settle(StripBom(b), MAX_PASSES)
  }

  method RunNormalize(b: string) returns (r: Option<string>)
    ensures r == Normalize(b)
  {
    hide ParsePage, SerializePage;
    var cur := StripBom(b);
    for pass := 0 to MAX_PASSES
      invariant Settle(cur, MAX_PASSES - pass) == Normalize(b)
    {
      var p := ParsePage(cur);
      if p.None? {
        return None;
      }
      var next := SerializePage(p.value);
      if next.None? {
        return None;
      }
      if next.value == cur {
        return next;
      }
      cur := next.value;
    }
    return None;
  }

  // ---- What is read ----

  /** A byte-order mark is skipped, one before a pass and one more by the pass itself; nothing else is. */
  lemma BomIsSkipped(x: string)
    ensures StripBom([BOM] + x) == x && Normalize([BOM] + x) == Settle(x, MAX_PASSES)
    ensures x == "" || x[0] != BOM ==>
            ParsePage([BOM] + x) == ParsePage(x) && Normalize([BOM] + x) == Normalize(x) == Settle(x, MAX_PASSES)
  {
    hide Settle, Collapse, Frame;
    assert ([BOM] + x)[1..] == x;
  }

  predicate HasAt(s: string, k: nat, d: string) {
    k + |d| <= |s| && s[k..k + |d|] == d
  }

  /** The text is this block and this body: behind an opening delimiter line the block goes up to the first closing one,
      or to a closing delimiter without a line feed that ends the text. */
  ghost predicate Frames(s: string, block: string, body: string) {
    || (&& s == "---\n" + (block + "\n---\n" + body)
        && forall k | 0 <= k < |block| :: !HasAt(block + "\n---\n" + body, k, "\n---\n"))
    || (&& s == "---\n" + (block + "\n---") && body == ""
        && forall k | 0 <= k < |block| :: !HasAt(block + "\n---", k, "\n---\n"))
  }

  lemma ClosesIff(s: string, k: nat)
    ensures ClosesAt(s, k) <==> HasAt(s, k, "\n---\n")
  {
    var d := "\n---\n";
    assert d == [d[0], d[1], d[2], d[3], d[4]];
    if k + 5 <= |s| {
      assert s[k..k + 5] == [s[k], s[k + 1], s[k + 2], s[k + 3], s[k + 4]];
    }
  }

  lemma {:induction false} ClosingIsFirst(s: string, i: nat)
    requires i <= |s|
    ensures var r := Closing(s, i);
      forall k | i <= k < if r.Some? then r.value else |s| :: !ClosesAt(s, k)
    decreases |s| - i
  {
    if i < |s| && !ClosesAt(s, i) {
      ClosingIsFirst(s, i + 1);
    }
  }

  /** Reading finds exactly these frames. */
  lemma FrameIff(s: string, block: string, body: string)
    ensures Frame(s) == Some((block, body)) <==> Frames(s, block, body)
  {
    if Frame(s) == Some((block, body)) {
      FrameIsFramed(s, block, body);
    }
    if Frames(s, block, body) {
      FramedIsFrame(s, block, body);
    }
  }

  lemma FrameIsFramed(s: string, block: string, body: string)
    requires Frame(s) == Some((block, body))
    ensures Frames(s, block, body)
  {
    var rest := s[4..];
    assert s[..4] == "---\n" && s == s[..4] + rest;
    ClosingIsFirst(rest, 0);
    var closing := Closing(rest, 0);
    if closing.Some? {
      var i := closing.value;
      ClosesIff(rest, i);
      assert rest == rest[..i] + rest[i..i + 5] + rest[i + 5..];
      assert rest == block + "\n---\n" + body;
    } else {
      var n := |rest|;
      assert rest[n - 4..] == [rest[n - 4], rest[n - 3], rest[n - 2], rest[n - 1]] == "\n---";
      assert rest == block + "\n---";
    }
    forall k | 0 <= k < |block|
      ensures !HasAt(rest, k, "\n---\n")
    {
      ClosesIff(rest, k);
    }
  }

  lemma FramedIsFrame(s: string, block: string, body: string)
    requires Frames(s, block, body)
    ensures Frame(s) == Some((block, body))
  {
    var rest := s[4..];
    var i := |block|;
    assert s[..4] == "---\n";
    assert s[0] == '-' && s[1] == '-' && s[2] == '-' && s[3] == '\n';
    forall k | 0 <= k < i
      ensures !ClosesAt(rest, k)
    {
      ClosesIff(rest, k);
    }
    if rest == block + "\n---\n" + body {
      assert rest[i..i + 5] == "\n---\n";
      ClosesIff(rest, i);
      ClosingSkips(rest, 0, i);
      assert rest[..i] == block && rest[i + 5..] == body;
    } else {
      assert rest == block + "\n---";
      ClosingIsFirst(rest, 0);
      assert rest[i] == '\n' && rest[i + 1] == '-' && rest[i + 2] == '-' && rest[i + 3] == '-';
      assert rest[..i] == block;
    }
  }

  /** Which texts are pages: those that are framed once the byte-order mark is off and CRLF is folded, and whose block
      decodes. */
  lemma ParsesIff(data: string, p: Page)
    ensures ParsePage(data) == Some(p) <==>
            exists block :: Frames(Collapse(StripBom(data)), block, p.body) && Decode(block) == Some(p.fm)
  {
    hide Collapse, Frames, Frame;
    var s := Collapse(StripBom(data));
    if ParsePage(data) == Some(p) {
      var (block, body) := Frame(s).value;
      FrameIff(s, block, body);
    }
    if block :| Frames(s, block, p.body) && Decode(block) == Some(p.fm) {
      FrameIff(s, block, p.body);
    }
  }

  // ---- Idempotence ----

  datatype Hash = Normal(page: string) | Raw(bytes: string)

  function HashOf(b: string): Hash {
    match Normalize(b)
    case Some(n) => Normal(n)
    case None => Raw(b)
  }

  lemma {:induction false} SettledIsFixed(cur: string, passes: nat)
    requires Settle(cur, passes).Some?
    ensures Pass(Settle(cur, passes).value) == Settle(cur, passes)
    decreases passes
  {
    hide Pass;
    if Pass(cur).value != cur {
      SettledIsFixed(Pass(cur).value, passes - 1);
    }
  }

  lemma PassOpens(cur: string)
    requires Pass(cur).Some?
    ensures var n := Pass(cur).value; Opens(n) && StripBom(n) == n
  {
    hide Collapse, Frame;
    var yaml := Encode(ParsePage(cur).value.fm).value;
    var body := Collapse(ParsePage(cur).value.body);
    assert Written(yaml, body)[..4] == "---\n";
  }

  /** What Normalize returns is its own canonical form, and hashes like the page it came from: no assumption on
      YAML. */
  lemma NormalizeIsIdempotent(x: string)
    requires Normalize(x).Some?
    ensures var n := Normalize(x).value; Normalize(n) == Some(n) && HashOf(n) == HashOf(x)
  {
    hide Pass;
    var n := Normalize(x).value;
    SettledIsFixed(StripBom(x), MAX_PASSES);
    PassOpens(n);
  }

  // ---- Runs of carriage returns ----

  /** A text, run by run: some carriage returns, then another character; carriage returns at the end. */
  datatype Text = End(crs: nat) | Run(crs: nat, ch: char, rest: Text)

  function Crs(n: nat): string {
    seq(n, i => '\r')
  }

  function Str(t: Text): string {
    match t
    case End(n) => Crs(n)
    case Run(n, ch, rest) => Crs(n) + ([ch] + Str(rest))
  }

  /** Carriage returns stand in the runs and nowhere else. */
  predicate Proper(t: Text) {
    t.Run? ==> t.ch != '\r' && Proper(t.rest)
  }

  /** One more carriage return in front. */
  function More(t: Text): Text {
    match t
    case End(n) => End(n + 1)
    case Run(n, ch, rest) => Run(n + 1, ch, rest)
  }

  function TextOf(s: string, i: nat): Text
    requires i <= |s|
    decreases |s| - i
  {
    if i == |s| then End(0)
    else if s[i] == '\r' then More(TextOf(s, i + 1))
    else Run(0, s[i], TextOf(s, i + 1))
  }

  /** Take `k` carriage returns (or as many as there are) from every run in front of a line feed. */
  function Drop(t: Text, k: nat): Text {
    match t
    case End(n) => t
    case Run(n, ch, rest) => Run(if ch != '\n' then n else if n < k then 0 else n - k, ch, Drop(rest, k))
  }

  /** The longest run of carriage returns in front of a line feed. */
  function Longest(t: Text): nat {
    match t
    case End(_) => 0
    case Run(n, ch, rest) => if ch == '\n' && n > Longest(rest) then n else Longest(rest)
  }

  lemma {:induction false} StrOfText(s: string, i: nat)
    requires i <= |s|
    ensures Proper(TextOf(s, i)) && Str(TextOf(s, i)) == s[i..]
    decreases |s| - i
  {
    if i < |s| {
      StrOfText(s, i + 1);
      var t := TextOf(s, i + 1);
      if s[i] == '\r' {
        StrMore(t);
        assert s[i..] == "\r" + s[i + 1..];
      } else {
        assert Crs(0) == "";
        assert s[i..] == [s[i]] + s[i + 1..];
      }
    }
  }

  lemma StrMore(t: Text)
    ensures Str(More(t)) == "\r" + Str(t)
  {
    var n := t.crs;
    assert Crs(n + 1) == "\r" + Crs(n);
  }

  lemma {:induction false} DropTwice(t: Text, j: nat, k: nat)
    ensures Drop(Drop(t, j), k) == Drop(t, j + k)
  {
    if t.Run? {
      DropTwice(t.rest, j, k);
    }
  }

  lemma {:induction false} LongestDrop(t: Text, k: nat)
    ensures Longest(Drop(t, k)) == if Longest(t) < k then 0 else Longest(t) - k
  {
    if t.Run? {
      LongestDrop(t.rest, k);
    }
  }

  lemma {:induction false} DropNothing(t: Text, k: nat)
    requires k > 0
    ensures Drop(t, k) == t <==> Longest(t) == 0
  {
    if t.Run? {
      DropNothing(t.rest, k);
    }
  }

  lemma {:induction false} DropEnough(t: Text, k: nat, l: nat)
    requires k >= l >= Longest(t)
    ensures Drop(t, k) == Drop(t, l)
  {
    if t.Run? {
      DropEnough(t.rest, k, l);
    }
  }

  lemma {:induction false} ProperDrop(t: Text, k: nat)
    requires Proper(t)
    ensures Proper(Drop(t, k))
  {
    if t.Run? {
      ProperDrop(t.rest, k);
    }
  }

  function Fewer(t: Text): (r: Text)
    requires t.crs > 0
    ensures More(r) == t && (Proper(t) ==> Proper(r))
  {
    t.(crs := t.crs - 1)
  }

  /** Where a run is over, its character follows. */
  lemma StrHead(t: Text)
    requires t.crs == 0
    ensures Str(t) == if t.Run? then [t.ch] + Str(t.rest) else ""
  {
    assert Crs(0) == "";
  }

  lemma ReadHead(t: Text, s: string, i: nat)
    requires i <= |s| && s[i..] == Str(t) && t.Run? && t.crs == 0
    ensures i < |s| && s[i] == t.ch && s[i + 1..] == Str(t.rest)
  {
    StrHead(t);
    assert s[i..][0] == t.ch && s[i..][1..] == Str(t.rest);
  }

  lemma ReadCr(t: Text, s: string, i: nat)
    requires i <= |s| && s[i..] == Str(t) && t.crs > 0
    ensures i < |s| && s[i] == '\r' && s[i + 1..] == Str(Fewer(t))
  {
    StrMore(Fewer(t));
    assert s[i..][0] == '\r' && s[i..][1..] == Str(Fewer(t));
  }

  lemma {:induction false} TextOfStr(t: Text, s: string, i: nat)
    requires Proper(t) && i <= |s| && s[i..] == Str(t)
    ensures TextOf(s, i) == t
    decreases |s| - i
  {
    if t.crs > 0 {
      ReadCr(t, s, i);
      TextOfStr(Fewer(t), s, i + 1);
    } else if t.Run? {
      ReadHead(t, s, i);
      TextOfStr(t.rest, s, i + 1);
    }
  }

  /** Behind this carriage return stands no line feed. */
  lemma NotLineFeed(t: Text, s: string, i: nat)
    requires Proper(t) && i <= |s| && s[i..] == Str(t) && (t.Run? && t.ch == '\n' ==> t.crs > 0)
    ensures i == |s| || s[i] != '\n'
  {
    if t.crs > 0 {
      ReadCr(t, s, i);
    } else if t.Run? {
      ReadHead(t, s, i);
    }
  }

  /** Replacing every CRLF takes one carriage return from every run in front of a line feed, and nothing else. */
  lemma {:induction false} UnCrDropsOne(t: Text, s: string, i: nat)
    requires Proper(t) && i <= |s| && s[i..] == Str(t)
    ensures UnCr(s, i) == Str(Drop(t, 1))
    decreases |s| - i
  {
    if t.crs == 0 {
      if t.Run? {
        ReadHead(t, s, i);
        UnCrDropsOne(t.rest, s, i + 1);
      }
      StrHead(Drop(t, 1));
    } else {
      var less := Fewer(t);
      ReadCr(t, s, i);
      if less.Run? && less.ch == '\n' && less.crs == 0 {
        ReadHead(less, s, i + 1);
        UnCrDropsOne(less.rest, s, i + 2);
        StrHead(Drop(t, 1));
      } else {
        NotLineFeed(less, s, i + 1);
        UnCrDropsOne(less, s, i + 1);
        StrMore(Drop(less, 1));
      }
    }
  }

  lemma CollapseIsDrop(s: string)
    ensures Collapse(s) == Str(Drop(TextOf(s, 0), 1))
    ensures TextOf(Collapse(s), 0) == Drop(TextOf(s, 0), 1)
  {
    var t := TextOf(s, 0);
    StrOfText(s, 0);
    UnCrDropsOne(t, s, 0);
    ProperDrop(t, 1);
    var c := Collapse(s);
    assert c[0..] == c;
    TextOfStr(Drop(t, 1), c, 0);
  }

  /** Two collapses, which is what one pass does to the body. */
  lemma CollapseTwice(s: string)
    ensures TextOf(Collapse(Collapse(s)), 0) == Drop(TextOf(s, 0), 2)
    ensures Collapse(Collapse(s)) == s <==> Longest(TextOf(s, 0)) == 0
  {
    CollapseIsDrop(s);
    CollapseIsDrop(Collapse(s));
    DropTwice(TextOf(s, 0), 1, 1);
    DropNothing(TextOf(s, 0), 2);
    StrOfText(s, 0);
    StrOfText(Collapse(Collapse(s)), 0);
  }

  predicate HasCrlf(s: string) {
    exists i :: 0 <= i < |s| - 1 && s[i] == '\r' && s[i + 1] == '\n'
  }

  lemma {:induction false} LongestIsZero(s: string, i: nat)
    requires i <= |s|
    ensures Longest(TextOf(s, i)) == 0 <==> forall k | i <= k < |s| - 1 :: !(s[k] == '\r' && s[k + 1] == '\n')
    decreases |s| - i
  {
    if i < |s| {
      LongestIsZero(s, i + 1);
    }
  }

  // ---- Framing ----

  /** What the encoder writes for a frontmatter: whole lines, none of them the delimiter, no carriage return. */
  ghost predicate Framed(yaml: string) {
    && |yaml| > 0 && yaml[|yaml| - 1] == '\n'
    && (forall i | 0 <= i < |yaml| :: yaml[i] != '\r')
    && (forall i | 0 <= i < |yaml| :: !ClosesAt(yaml, i))
  }

  ghost predicate EncoderFrames() {
    forall fm: Frontmatter | Encode(fm).Some? :: Framed(Encode(fm).value)
  }

  /** What a block becomes when it is decoded and encoded again. */
  function Reencode(yaml: string): Option<string>
    requires yaml != ""
  {
    match Decode(yaml[..|yaml| - 1])
    case None => None
    case Some(fm) => Encode(fm)
  }

  /** What a block becomes after `n` such rounds. */
  ghost function Round(yaml: string, n: nat): Option<string>
    requires EncoderFrames() && Framed(yaml)
    decreases n
  {
    if n == 0 then Some(yaml)
    else
      match Reencode(yaml)
      case None => None
      case Some(y) => Round(y, n - 1)
  }

  /** The block stops changing within `n` rounds. */
  ghost predicate Settles(yaml: string, n: nat)
    requires EncoderFrames() && Framed(yaml)
  {
    Round(yaml, n).Some? && Round(yaml, n + 1) == Round(yaml, n)
  }

  lemma {:induction false} UnCrPrefix(p: string, b: string, i: nat)
    requires i <= |p| && forall k | 0 <= k < |p| :: p[k] != '\r'
    ensures UnCr(p + b, i) == p[i..] + Collapse(b)
    decreases |p| - i
  {
    hide Collapse;
    if i < |p| {
      UnCrPrefix(p, b, i + 1);
      UnCrStep(p + b, i);
      assert p[i..] == [p[i]] + p[i + 1..];
      assert [p[i]] + (p[i + 1..] + Collapse(b)) == p[i..] + Collapse(b);
    } else {
      assert (p + b)[|p|..] == b;
      UnCrShift(p + b, |p|, b, 0);
      assert UnCr(b, 0) == Collapse(b) by { Unfolded(b); }
      assert p[i..] == "";
    }
  }

  lemma UnCrStep(s: string, i: nat)
    requires i < |s| && s[i] != '\r'
    ensures UnCr(s, i) == [s[i]] + UnCr(s, i + 1)
  {
  }

  lemma Unfolded(s: string)
    ensures Collapse(s) == UnCr(s, 0)
  {
  }

  lemma {:induction false} UnCrShift(s: string, d: nat, b: string, i: nat)
    requires d <= |s| && s[d..] == b && i <= |b|
    ensures UnCr(s, d + i) == UnCr(b, i)
    decreases |b| - i
  {
    if i < |b| {
      assert s[d + i] == b[i];
      if i + 1 < |b| {
        assert s[d + i + 1] == b[i + 1];
      }
      if b[i] == '\r' && i + 1 < |b| && b[i + 1] == '\n' {
        UnCrShift(s, d, b, i + 2);
      } else {
        UnCrShift(s, d, b, i + 1);
      }
    }
  }

  lemma CollapseWritten(yaml: string, b: string)
    requires Framed(yaml)
    ensures Collapse(StripBom(Written(yaml, b))) == Written(yaml, Collapse(b))
  {
    var p := "---\n" + yaml + "---\n";
    assert Written(yaml, b) == p + b && Written(yaml, Collapse(b)) == p + Collapse(b);
    forall k | 0 <= k < |p|
      ensures p[k] != '\r'
    {
      if 4 <= k < 4 + |yaml| {
        assert p[k] == yaml[k - 4];
      }
    }
    UnCrPrefix(p, b, 0);
    assert p[0..] == p && (p + b)[0] == '-';
  }

  lemma {:induction false} ClosingSkips(s: string, i: nat, j: nat)
    requires i <= j < |s| && ClosesAt(s, j) && forall k | i <= k < j :: !ClosesAt(s, k)
    ensures Closing(s, i) == Some(j)
    decreases j - i
  {
    if i < j {
      ClosingSkips(s, i + 1, j);
    }
  }

  lemma FrameWritten(yaml: string, b: string)
    requires Framed(yaml)
    ensures Frame(Written(yaml, b)) == Some((yaml[..|yaml| - 1], b))
  {
    var s := Written(yaml, b);
    var rest := yaml + "---\n" + b;
    assert s[..4] == "---\n" && s[4..] == rest;
    assert s[0] == '-' && s[1] == '-' && s[2] == '-' && s[3] == '\n';
    var j := |yaml| - 1;
    assert rest[j] == '\n' && rest[j + 1] == '-' && rest[j + 2] == '-' && rest[j + 3] == '-' && rest[j + 4] == '\n';
    forall k | 0 <= k < j
      ensures !ClosesAt(rest, k)
    {
      NotBefore(yaml, rest, k);
    }
    ClosingSkips(rest, 0, j);
    assert rest[..j] == yaml[..j] && rest[j + 5..] == b;
  }

  /** Inside the block no delimiter line ends. */
  lemma NotBefore(yaml: string, rest: string, k: nat)
    requires Framed(yaml) && |yaml| <= |rest| && (forall i | 0 <= i < |yaml| :: rest[i] == yaml[i]) && k < |yaml| - 1
    ensures !ClosesAt(rest, k)
  {
    var last := |yaml| - 1;
    assert rest[last] == yaml[last] == '\n';
    assert !ClosesAt(yaml, k);
  }

  /** One pass over a page in written form: its block takes a round, its body loses two carriage returns per run. */
  lemma PassWritten(yaml: string, b: string)
    requires Framed(yaml)
    ensures Pass(Written(yaml, b))
         == match Reencode(yaml) case None => None case Some(y) => Some(Written(y, Collapse(Collapse(b))))
  {
    hide Written, Frame, StripBom, Collapse;
    CollapseWritten(yaml, b);
    FrameWritten(yaml, Collapse(b));
  }

  // ---- How far Normalize gets ----

  /** The body without any carriage return in front of a line feed. */
  function WithoutCrlf(b: string): string {
    Str(Drop(TextOf(b, 0), Longest(TextOf(b, 0))))
  }

  lemma WithoutCrlfHasNone(b: string)
    ensures !HasCrlf(WithoutCrlf(b))
  {
    var t := TextOf(b, 0);
    var u := Drop(t, Longest(t));
    StrOfText(b, 0);
    ProperDrop(t, Longest(t));
    var w := WithoutCrlf(b);
    assert w[0..] == w;
    TextOfStr(u, w, 0);
    LongestDrop(t, Longest(t));
    LongestIsZero(w, 0);
  }

  lemma SameWritten(yaml: string, b: string, y: string, c: string)
    requires Framed(yaml) && Framed(y)
    ensures Written(yaml, b) == Written(y, c) <==> yaml == y && b == c
  {
    if Written(yaml, b) == Written(y, c) {
      FrameWritten(yaml, b);
      FrameWritten(y, c);
      assert yaml == yaml[..|yaml| - 1] + "\n" && y == y[..|y| - 1] + "\n";
    }
  }

  lemma {:induction false} SettledBlockStays(yaml: string, n: nat)
    requires EncoderFrames() && Framed(yaml) && Reencode(yaml) == Some(yaml)
    ensures Round(yaml, n) == Some(yaml)
  {
    if n > 0 {
      SettledBlockStays(yaml, n - 1);
    }
  }

  /** How many passes a page in written form needs: its block and its body settle side by side, and one pass more
      sees that nothing changed. */
  lemma {:induction false} SettleWritten(yaml: string, b: string, passes: nat)
    requires EncoderFrames() && Framed(yaml)
    ensures Settle(Written(yaml, b), passes)
         == if passes > 0 && Settles(yaml, passes - 1) && Longest(TextOf(b, 0)) <= 2 * (passes - 1)
            then Some(Written(Round(yaml, passes - 1).value, WithoutCrlf(b))) else None
    decreases passes
  {
    hide Written, Pass, Collapse, TextOf, Longest, Drop, Framed, Reencode, WithoutCrlf;
    assert yaml != "" by { FramedNotEmpty(yaml); }
    if passes > 0 {
      var c := Collapse(Collapse(b));
      PassWritten(yaml, b);
      CollapseTwice(b);
      LongestDrop(TextOf(b, 0), 2);
      if Reencode(yaml).Some? {
        var y := Reencode(yaml).value;
        ReencodeFrames(yaml);
        SameWritten(yaml, b, y, c);
        if y == yaml && c == b {
          SettledBlockStays(yaml, passes - 1);
          SettledBlockStays(yaml, passes);
          NothingToDrop(b);
        } else {
          SettleWritten(y, c, passes - 1);
          SameTarget(b, c, 2);
          RoundStep(yaml, y, passes);
          if passes > 1 {
            RoundStep(yaml, y, passes - 1);
          }
        }
      }
    }
  }

  lemma RoundStep(yaml: string, y: string, n: nat)
    requires EncoderFrames() && Framed(yaml) && Framed(y) && Reencode(yaml) == Some(y) && n > 0
    ensures Round(yaml, n) == Round(y, n - 1) && Round(yaml, 0) == Some(yaml) && Round(y, 0) == Some(y)
  {
  }

  lemma FramedNotEmpty(yaml: string)
    requires Framed(yaml)
    ensures yaml != ""
  {
  }

  lemma ReencodeFrames(yaml: string)
    requires EncoderFrames() && yaml != "" && Reencode(yaml).Some?
    ensures Framed(Reencode(yaml).value)
  {
  }

  lemma NothingToDrop(b: string)
    requires Longest(TextOf(b, 0)) == 0
    ensures WithoutCrlf(b) == b
  {
    DropEnough(TextOf(b, 0), 1, 0);
    DropNothing(TextOf(b, 0), 1);
    StrOfText(b, 0);
  }

  lemma SameTarget(b: string, c: string, k: nat)
    requires TextOf(c, 0) == Drop(TextOf(b, 0), k)
    ensures WithoutCrlf(c) == WithoutCrlf(b)
  {
    hide Drop, Longest, TextOf;
    var t := TextOf(b, 0);
    var l, m := Longest(t), Longest(Drop(t, k));
    LongestDrop(t, k);
    DropTwice(t, k, m);
    DropEnough(t, k + m, l);
  }

  /** Which pages have a canonical form, and what it is - whatever their line endings, with or without a BOM, and
      whatever their block looks like. Reading takes the BOM, folds CRLF once and finds block and body; from there on
      the block must stop changing within 62 rounds of decoding and encoding, and no line feed of the body may have
      more than 125 carriage returns left in front of it: two go per pass, since reading and writing each replace
      CRLF, and the first pass has already read. The result is the settled block and the body without any of them. */
  lemma NormalizesIff(x: string)
    requires EncoderFrames()
    ensures Normalize(x)
         == match ParsePage(StripBom(x))
            case None => None
            case Some(p) =>
              if Encode(p.fm).Some? && Settles(Encode(p.fm).value, 62) && Longest(TextOf(p.body, 0)) <= 125
              then Some(Written(Round(Encode(p.fm).value, 62).value, WithoutCrlf(p.body)))
              else None
    ensures ParsePage(StripBom(x)).Some? ==> !HasCrlf(WithoutCrlf(ParsePage(StripBom(x)).value.body))
  {
    hide Written, Settle, Collapse, TextOf, Longest, Drop, Framed, Round, WithoutCrlf, StripBom, ParsePage;
    var cur := StripBom(x);
    if ParsePage(cur).Some? && Encode(ParsePage(cur).value.fm).Some? {
      var p := ParsePage(cur).value;
      var yaml, b := Encode(p.fm).value, Collapse(p.body);
      CollapseIsDrop(p.body);
      LongestDrop(TextOf(p.body, 0), 1);
      SameTarget(p.body, b, 1);
      FirstPass(cur, MAX_PASSES);
      FirstPass(cur, MAX_PASSES - 1);
      assert Settle(cur, MAX_PASSES) == Settle(Written(yaml, b), MAX_PASSES - 1);
      SettleWritten(yaml, b, MAX_PASSES - 1);
    } else {
      FirstPass(cur, MAX_PASSES);
    }
    if ParsePage(cur).Some? {
      WithoutCrlfHasNone(ParsePage(cur).value.body);
    }
  }

  /** So a page already in written form, with a block that is written as it is read, has a canonical form exactly
      when no line feed of its body has more than 126 carriage returns in front of it. */
  lemma WrittenNormalizesIff(yaml: string, b: string)
    requires EncoderFrames() && Framed(yaml) && Reencode(yaml) == Some(yaml)
    ensures Normalize(Written(yaml, b))
         == if Longest(TextOf(b, 0)) <= 126 then Some(Written(yaml, WithoutCrlf(b))) else None
  {
    hide Settle;
    var p := "---\n" + yaml + "---\n";
    assert Written(yaml, b) == p + b && (p + b)[0] == '-';
    SettleWritten(yaml, b, MAX_PASSES);
    SettledBlockStays(yaml, MAX_PASSES - 1);
    SettledBlockStays(yaml, MAX_PASSES);
  }

  /** The first pass, unfolded. */
  lemma FirstPass(cur: string, passes: nat)
    requires passes > 0
    ensures Settle(cur, passes)
         == match Pass(cur) case None => None
            case Some(next) => if next == cur then Some(next) else Settle(next, passes - 1)
  {
  }

  /** Whatever page one starts from: if it has a canonical form, that form is a framed block and a body with no
      CRLF. */
  lemma CanonicalBodyHasNoCrlf(x: string)
    requires EncoderFrames() && Normalize(x).Some?
    ensures exists yaml, body :: Normalize(x).value == Written(yaml, body) && Framed(yaml) && !HasCrlf(body)
  {
    hide Collapse, Frame, Written, Framed;
    var n := Normalize(x).value;
    SettledIsFixed(StripBom(x), MAX_PASSES);
    var p := ParsePage(n).value;
    var yaml := Encode(p.fm).value;
    var c := Collapse(p.body);
    assert n == Written(yaml, c);
    CollapseWritten(yaml, c);
    FrameWritten(yaml, Collapse(c));
    assert p.body == Collapse(c);
    CollapseTwice(c);
    LongestIsZero(c, 0);
  }
}

/** The section parser of internal/diff/section.go: a preamble, then one section per `## ` line. */
module SectionParser {
  import opened Lines

  datatype Section = Section(heading: string, body: string)

  const BLANK: set<char> := {' ', '\t'}
  const TRAILING: set<char> := {' ', '\t', '\n'}

  /** `isH2`. Its further test for `### ` rejects nothing: the third character is already a blank. */
  predicate IsH2(line: string) {
    |line| >= 3 && line[0] == '#' && line[1] == '#' && line[2] == ' '
  }

  /** No line starts a section. */
  ghost predicate PlainLines(ls: seq<string>) {
    forall k | 0 <= k < |ls| :: !IsH2(ls[k])
  }

  function DropCR(line: string): string {
    if line != "" && line[|line| - 1] == '\r' then line[..|line| - 1] else line
  }

  /** `bufio.ScanLines`: no token after a final newline, and one CR dropped from the end of each line. */
  function ScanLines(s: string): seq<string> {
    var ls := Split(s);
    var kept := if ls[|ls| - 1] == "" then ls[..|ls| - 1] else ls;
    seq(|kept|, k requires 0 <= k < |kept| => DropCR(kept[k]))
  }

  /** What the builder holds after `ls`: a separator is written only before a line that follows some text. */
  function Accum(ls: seq<string>): string {
    if ls == [] then "" else Extend(Accum(ls[..|ls| - 1]), ls[|ls| - 1])
  }

  function Extend(text: string, line: string): string {
    (if text == "" then "" else text + "\n") + line
  }

  /** The number of leading lines that start no section. */
  function Plain(ls: seq<string>): (n: nat)
    ensures n <= |ls|
    ensures forall k | 0 <= k < n :: !IsH2(ls[k])
    ensures n < |ls| ==> IsH2(ls[n])
  {
    if ls == [] || IsH2(ls[0]) then 0 else 1 + Plain(ls[1..])
  }

  /** The sections of lines that start with a heading. */
  function Sections(ls: seq<string>): seq<Section>
    requires ls != [] ==> IsH2(ls[0])
    decreases |ls|
  {
    if ls == [] then []
    else
      var n := Plain(ls[1..]);
      [SectionOf(ls[0], ls[1..1 + n])] + Sections(ls[1 + n..])
  }

  function SectionOf(heading: string, ls: seq<string>): Section {
    Section(TrimRight(heading, BLANK), TrimRight(Accum(ls), TRAILING))
  }

  function ParseLines(ls: seq<string>): (string, seq<Section>) {
    var n := Plain(ls);
    (TrimRight(Accum(ls[..n]), TRAILING), Sections(ls[n..]))
  }

  function Parse(body: string): (string, seq<Section>) {
    ParseLines(ScanLines(Collapse(body)))
  }

  /** `parseSections`: one pass over the lines, filling the preamble and section builders. */
  method ParseSections(body: string) returns (preamble: string, sections: seq<Section>)
    ensures (preamble, sections) == Parse(body)
  {
    var text := Collapse(body);
    if text == "" {
      return "", [];
    }
    preamble, sections := ScanSections(ScanLines(text));
  }

  /** What one pass over `lines[..k]` has built: closed sections and the open one, whose heading is at `start`. */
  ghost predicate Scanned(lines: seq<string>, k: nat, start: nat, pre: string, sections: seq<Section>,
                          curHeading: string, curBody: string)
    requires k <= |lines|
  {
    && start < k && OnlyHeading(lines, start, k)
    && Plain(lines) <= start
    && pre == Accum(lines[0..Plain(lines)])
    && curHeading == TrimRight(lines[start], BLANK)
    && curBody == Accum(lines[start + 1..k])
    && Sections(lines[Plain(lines)..]) == sections + Sections(lines[start..])
  }

  ghost predicate OnlyHeading(lines: seq<string>, start: nat, k: nat)
    requires start < k <= |lines|
  {
    IsH2(lines[start]) && forall x | start < x < k :: !IsH2(lines[x])
  }

  lemma ScannedStart(lines: seq<string>, k: nat, pre: string)
    requires k == Plain(lines) < |lines| && pre == Accum(lines[0..k])
    ensures Scanned(lines, k + 1, k, pre, [], TrimRight(lines[k], BLANK), "")
  {
    assert lines[k + 1..k + 1] == [];
  }

  lemma ScannedHeading(lines: seq<string>, k: nat, start: nat, pre: string, sections: seq<Section>,
                       curHeading: string, curBody: string)
    requires k < |lines| && IsH2(lines[k])
    requires Scanned(lines, k, start, pre, sections, curHeading, curBody)
    ensures Scanned(lines, k + 1, k, pre, sections + [Section(curHeading, TrimRight(curBody, TRAILING))],
                    TrimRight(lines[k], BLANK), "")
  {
    hide IsH2, Sections, TrimRight;
    OpenSection(lines, start, k);
    assert lines[k + 1..k + 1] == [];
  }

  lemma ScannedLine(lines: seq<string>, k: nat, start: nat, pre: string, sections: seq<Section>,
                    curHeading: string, curBody: string)
    requires k < |lines| && !IsH2(lines[k])
    requires Scanned(lines, k, start, pre, sections, curHeading, curBody)
    ensures Scanned(lines, k + 1, start, pre, sections, curHeading, Extend(curBody, lines[k]))
  {
    hide IsH2, Sections, TrimRight, Accum;
    AccumSnoc(lines, start + 1, k);
  }

  lemma ScannedEnd(lines: seq<string>, start: nat, pre: string, sections: seq<Section>,
                   curHeading: string, curBody: string)
    requires Scanned(lines, |lines|, start, pre, sections, curHeading, curBody)
    ensures ParseLines(lines) ==
            (TrimRight(pre, TRAILING), sections + [Section(curHeading, TrimRight(curBody, TRAILING))])
  {
    OpenSection(lines, start, |lines|);
    var x := Section(curHeading, TrimRight(curBody, TRAILING));
    assert lines[|lines|..] == [];
    assert Sections(lines[Plain(lines)..]) == sections + [x];
    assert lines[0..Plain(lines)] == lines[..Plain(lines)];
  }

  /** The loop's state after `lines[..k]`: still in the preamble, or inside a section. */
  ghost predicate Scanning(lines: seq<string>, k: nat, start: nat, pre: string, sections: seq<Section>,
                           curHeading: string, curBody: string, inSection: bool)
    requires k <= |lines|
  {
    if k <= Plain(lines) then !inSection && sections == [] && pre == Accum(lines[0..k])
    else inSection && Scanned(lines, k, start, pre, sections, curHeading, curBody)
  }

  /** The sections once the open one, if any, is closed. */
  function Closed(sections: seq<Section>, curHeading: string, curBody: string, inSection: bool): seq<Section> {
    if inSection then sections + [Section(curHeading, TrimRight(curBody, TRAILING))] else sections
  }

  lemma ScanStart(lines: seq<string>)
    ensures Scanning(lines, 0, 0, "", [], "", "", false)
  {
    assert lines[0..0] == [];
  }

  lemma ScanStep(lines: seq<string>, k: nat, start: nat, pre: string, sections: seq<Section>,
                 curHeading: string, curBody: string, inSection: bool)
    requires k < |lines| && Scanning(lines, k, start, pre, sections, curHeading, curBody, inSection)
    ensures IsH2(lines[k]) ==>
              var closed := Closed(sections, curHeading, curBody, inSection);
              Scanning(lines, k + 1, k, pre, closed, TrimRight(lines[k], BLANK), "", true)
    ensures !IsH2(lines[k]) && inSection ==>
              Scanning(lines, k + 1, start, pre, sections, curHeading, Extend(curBody, lines[k]), true)
    ensures !IsH2(lines[k]) && !inSection ==>
              Scanning(lines, k + 1, start, Extend(pre, lines[k]), sections, curHeading, curBody, false)
  {
    if !inSection {
      if IsH2(lines[k]) {
        ScannedStart(lines, k, pre);
      } else {
        AccumSnoc(lines, 0, k);
      }
    } else if IsH2(lines[k]) {
      ScannedHeading(lines, k, start, pre, sections, curHeading, curBody);
    } else {
      ScannedLine(lines, k, start, pre, sections, curHeading, curBody);
    }
  }

  lemma ScanEnd(lines: seq<string>, start: nat, pre: string, sections: seq<Section>,
                curHeading: string, curBody: string, inSection: bool)
    requires Scanning(lines, |lines|, start, pre, sections, curHeading, curBody, inSection)
    ensures ParseLines(lines) == (TrimRight(pre, TRAILING), Closed(sections, curHeading, curBody, inSection))
  {
    if inSection {
      ScannedEnd(lines, start, pre, sections, curHeading, curBody);
    } else {
      assert Plain(lines) == |lines|;
      assert lines[0..|lines|] == lines[..|lines|] && lines[|lines|..] == [];
      assert Sections(lines[Plain(lines)..]) == [] == sections + [];
    }
  }

  method ScanSections(lines: seq<string>) returns (preamble: string, sections: seq<Section>)
    ensures (preamble, sections) == ParseLines(lines)
  {
    hide IsH2, TrimRight, Scanning, ParseLines;
    ghost var start: nat := 0;
    ScanStart(lines);
    var pre, curHeading, curBody, inSection := "", "", "", false;
    sections := [];
    for k := 0 to |lines|
      invariant Scanning(lines, k, start, pre, sections, curHeading, curBody, inSection)
    {
      var line := lines[k];
      ScanStep(lines, k, start, pre, sections, curHeading, curBody, inSection);
      if IsH2(line) {
        if inSection {
          sections := sections + [Section(curHeading, TrimRight(curBody, TRAILING))];
        }
        curHeading := TrimRight(line, BLANK);
        curBody := "";
        inSection := true;
        start := k;
      } else if inSection {
        if |curBody| > 0 {
          curBody := curBody + "\n";
        }
        curBody := curBody + line;
      } else {
        if |pre| > 0 {
          pre := pre + "\n";
        }
        pre := pre + line;
      }
    }
    ScanEnd(lines, start, pre, sections, curHeading, curBody, inSection);
    if inSection {
      sections := sections + [Section(curHeading, TrimRight(curBody, TRAILING))];
    }
    preamble := TrimRight(pre, TRAILING);
  }

  lemma AccumSnoc(lines: seq<string>, from: nat, k: nat)
    requires from <= k < |lines|
    ensures Accum(lines[from..k + 1]) == Extend(Accum(lines[from..k]), lines[k])
  {
    assert lines[from..k + 1][..k - from] == lines[from..k];
  }

  /** The section opened at `start` runs to the next heading `k`, or to the end. */
  lemma OpenSection(lines: seq<string>, start: nat, k: nat)
    requires start < k <= |lines| && OnlyHeading(lines, start, k)
    requires k < |lines| ==> IsH2(lines[k])
    ensures Sections(lines[start..]) == [SectionOf(lines[start], lines[start + 1..k])] + Sections(lines[k..])
  {
    var ls := lines[start..];
    PlainIs(ls[1..], k - start - 1);
    assert ls[1..1 + (k - start - 1)] == lines[start + 1..k];
    assert ls[k - start..] == lines[k..];
  }

  lemma {:induction false} PlainIs(ls: seq<string>, n: nat)
    requires n <= |ls| && forall k | 0 <= k < n :: !IsH2(ls[k])
    requires n < |ls| ==> IsH2(ls[n])
    ensures Plain(ls) == n
  {
    if n > 0 {
      PlainIs(ls[1..], n - 1);
    }
  }

  // ---- The parse is a normal form ----

  /** The lines of a text that is empty or one piece per line. */
  function TextLines(t: string): seq<string> {
    SplitLines(t)
  }

  function RenderSections(secs: seq<Section>): seq<string> {
    if secs == [] then [] else [secs[0].heading] + TextLines(secs[0].body) + RenderSections(secs[1..])
  }

  /** The preamble and the sections written out again, one after the other. */
  function Render(preamble: string, secs: seq<Section>): string {
    var ls := TextLines(preamble) + RenderSections(secs);
    if ls == [] then "" else Join(ls)
  }

  /** A trimmed builder result: no CR, no leading newline, no trailing blank, no line that starts a section. */
  ghost predicate Settled(t: string) {
    && '\r' !in t
    && TrimRight(t, TRAILING) == t
    && (t != "" ==> t[0] != '\n')
    && PlainLines(TextLines(t))
  }

  lemma {:induction false} AccumHead(l: string, ls: seq<string>)
    requires l != ""
    ensures Accum([l] + ls) == Join([l] + ls)
    decreases |ls|
  {
    var all := [l] + ls;
    if ls == [] {
      assert all[..0] == [];
    } else {
      var n := |ls| - 1;
      AccumHead(l, ls[..n]);
      assert all[..|all| - 1] == [l] + ls[..n];
      JoinSnoc([l] + ls[..n], ls[n]);
      assert [l] + ls[..n] + [ls[n]] == all;
      JoinNonEmpty(l, ls[..n]);
    }
  }

  lemma JoinNonEmpty(l: string, ls: seq<string>)
    requires l != ""
    ensures Join([l] + ls) != ""
  {
  }

  lemma {:induction false} JoinSnoc(ls: seq<string>, l: string)
    requires |ls| > 0
    ensures Join(ls + [l]) == Join(ls) + "\n" + l
  {
    if |ls| == 1 {
      assert (ls + [l])[1..] == [l];
    } else {
      JoinSnoc(ls[1..], l);
      assert (ls + [l])[1..] == ls[1..] + [l];
    }
  }

  /** Leading empty lines leave no trace in the builder. */
  lemma {:induction false} AccumSkips(ls: seq<string>)
    requires |ls| > 0 && ls[0] == ""
    ensures Accum(ls) == Accum(ls[1..])
  {
    var n := |ls| - 1;
    if n == 0 {
      assert ls[..0] == [] && ls[1..] == [];
    } else {
      AccumSkips(ls[..n]);
      assert ls[..n][1..] == ls[1..][..n - 1];
      assert ls[1..][n - 1] == ls[n];
    }
  }

  ghost predicate CleanLines(ls: seq<string>) {
    forall k | 0 <= k < |ls| :: NoNewline(ls[k]) && '\r' !in ls[k]
  }

  /** Whatever plain lines a builder took in, its trimmed text is settled. */
  lemma {:induction false} AccumSettles(ls: seq<string>)
    requires CleanLines(ls) && PlainLines(ls)
    ensures Settled(TrimRight(Accum(ls), TRAILING))
    decreases |ls|
  {
    if ls == [] {
    } else if ls[0] == "" {
      AccumSkips(ls);
      AccumSettles(ls[1..]);
    } else {
      assert ls == [ls[0]] + ls[1..];
      AccumHead(ls[0], ls[1..]);
      TrimmedJoin(ls);
    }
  }

  lemma TrimIdempotent(t: string, cut: set<char>)
    ensures TrimRight(TrimRight(t, cut), cut) == TrimRight(t, cut)
  {
  }

  lemma {:induction false} JoinChars(ls: seq<string>)
    requires |ls| > 0 && CleanLines(ls)
    ensures '\r' !in Join(ls)
  {
    assert ls[0] in ls;
    if |ls| > 1 {
      JoinChars(ls[1..]);
    }
  }

  lemma TrimmedJoin(ls: seq<string>)
    requires |ls| > 0 && ls[0] != ""
    requires CleanLines(ls) && PlainLines(ls)
    ensures Settled(TrimRight(Join(ls), TRAILING))
  {
    var j := Join(ls);
    var t := TrimRight(j, TRAILING);
    JoinChars(ls);
    TrimIdempotent(j, TRAILING);
    if t != "" {
      assert t[0] == j[0] == ls[0][0];
      assert ls[0] in ls;
      TrimmedLines(ls);
    }
  }

  lemma TrimmedLines(ls: seq<string>)
    requires |ls| > 0 && CleanLines(ls) && PlainLines(ls)
    ensures PlainLines(Split(TrimRight(Join(ls), TRAILING)))
  {
    var t := TrimRight(Join(ls), TRAILING);
    SplitJoin(ls);
    forall k | 0 <= k < |Split(t)|
      ensures !IsH2(Split(t)[k])
    {
      PrefixLines(t, Join(ls), k);
    }
  }

  /** Every line of a prefix is a prefix of the line at the same place. */
  lemma {:induction false} PrefixLines(t: string, s: string, k: nat)
    requires t <= s && k < |Split(t)|
    ensures k < |Split(s)| && Split(t)[k] <= Split(s)[k]
  {
    if t != "" {
      var k' := if t[0] == '\n' && k > 0 then k - 1 else k;
      if k' < |Split(t[1..])| {
        PrefixLines(t[1..], s[1..], k');
      }
    }
  }

  /** A settled text survives being written out as lines and read by a builder again. */
  lemma SettledReads(t: string)
    requires Settled(t)
    ensures TrimRight(Accum(TextLines(t)), TRAILING) == t
  {
    if t != "" {
      var ls := Split(t);
      JoinSplit(t);
      assert ls == [ls[0]] + ls[1..];
      AccumHead(ls[0], ls[1..]);
    }
  }

  ghost predicate SettledSections(secs: seq<Section>) {
    forall x | x in secs ::
      && Settled(x.body)
      && NoNewline(x.heading) && '\r' !in x.heading
      && "##" <= x.heading
      && TrimRight(x.heading, BLANK) == x.heading
      && (IsH2(x.heading) <==> x.heading != "##")
  }

  lemma TrimmedHeading(line: string)
    requires IsH2(line) && NoNewline(line) && '\r' !in line
    ensures var h := TrimRight(line, BLANK);
      && NoNewline(h) && '\r' !in h && "##" <= h
      && TrimRight(h, BLANK) == h
      && (IsH2(h) <==> h != "##")
  {
    var h := TrimRight(line, BLANK);
    assert line[0] == '#' && line[1] == '#' && line[2] == ' ';
    assert |h| >= 2;
    TrimIdempotent(line, BLANK);
    if |h| > 2 {
      assert h[2] == ' ' && h[..3] == "## ";
    }
  }

  lemma {:induction false} SectionsSettle(ls: seq<string>)
    requires CleanLines(ls) && (ls != [] ==> IsH2(ls[0]))
    ensures SettledSections(Sections(ls))
    decreases |ls|
  {
    if ls != [] {
      var n := Plain(ls[1..]);
      TrimmedHeading(ls[0]);
      AccumSettles(ls[1..1 + n]);
      SectionsSettle(ls[1 + n..]);
    }
  }

  /** Lines that are the rendering of settled parts parse back into those parts. */
  lemma {:induction false} SectionsRendered(secs: seq<Section>)
    requires SettledSections(secs) && forall x | x in secs :: x.heading != "##"
    ensures var ls := RenderSections(secs);
      (ls != [] ==> IsH2(ls[0])) && Sections(ls) == secs
  {
    if secs != [] {
      SectionsRendered(secs[1..]);
      FirstRendered(secs[0], RenderSections(secs[1..]));
    }
  }

  lemma FirstRendered(x: Section, tail: seq<string>)
    requires SettledSections([x]) && x.heading != "##"
    requires tail != [] ==> IsH2(tail[0])
    ensures IsH2(x.heading)
    ensures Sections([x.heading] + TextLines(x.body) + tail) == [x] + Sections(tail)
  {
    hide IsH2, Accum, TrimRight;
    assert x in [x];
    var body := TextLines(x.body);
    var ls := [x.heading] + body + tail;
    assert forall k | 1 <= k < 1 + |body| :: ls[k] == body[k - 1];
    OpenSection(ls, 0, 1 + |body|);
    assert ls[0..] == ls && ls[1..1 + |body|] == body && ls[1 + |body|..] == tail;
    SettledReads(x.body);
  }

  function H2Lines(ls: seq<string>): nat {
    if ls == [] then 0 else H2Lines(ls[1..]) + if IsH2(ls[0]) then 1 else 0
  }

  lemma {:induction false} H2Append(a: seq<string>, b: seq<string>)
    ensures H2Lines(a + b) == H2Lines(a) + H2Lines(b)
  {
    if a == [] {
      assert a + b == b;
    } else {
      H2Append(a[1..], b);
      assert (a + b)[1..] == a[1..] + b;
    }
  }

  lemma {:induction false} NoH2(ls: seq<string>)
    requires PlainLines(ls)
    ensures H2Lines(ls) == 0
  {
    if ls != [] {
      NoH2(ls[1..]);
    }
  }

  lemma FirstSectionH2(ls: seq<string>)
    requires ls != [] && IsH2(ls[0])
    ensures H2Lines(ls) == 1 + H2Lines(ls[1 + Plain(ls[1..])..])
  {
    PlainPartH2(ls[1..]);
    assert ls[1..][Plain(ls[1..])..] == ls[1 + Plain(ls[1..])..];
  }

  lemma PlainPartH2(ls: seq<string>)
    ensures H2Lines(ls) == H2Lines(ls[Plain(ls)..])
  {
    var n := Plain(ls);
    NoH2(ls[..n]);
    H2Append(ls[..n], ls[n..]);
    assert ls == ls[..n] + ls[n..];
  }

  lemma {:induction false} SectionCount(ls: seq<string>)
    requires ls != [] ==> IsH2(ls[0])
    ensures |Sections(ls)| == H2Lines(ls)
    decreases |ls|
  {
    hide IsH2;
    if ls != [] {
      SectionCount(ls[1 + Plain(ls[1..])..]);
      FirstSectionH2(ls);
    }
  }

  /** A heading with no visible text is no longer one when it is read again. */
  lemma {:induction false} RenderedCount(secs: seq<Section>)
    requires SettledSections(secs)
    ensures H2Lines(RenderSections(secs)) <= |secs|
    ensures (exists x :: x in secs && x.heading == "##") ==> H2Lines(RenderSections(secs)) < |secs|
  {
    if secs != [] {
      var x := secs[0];
      RenderedCount(secs[1..]);
      var body, tail := TextLines(x.body), RenderSections(secs[1..]);
      NoH2(body);
      H2Append(body, tail);
      H2Append([x.heading], body + tail);
      assert RenderSections(secs) == [x.heading] + (body + tail);
      assert forall y | y in secs :: y == x || y in secs[1..];
    }
  }

  lemma NoCR(s: string)
    requires '\r' !in s
    ensures Collapse(s) == s
  {
    NoCRFrom(s, 0);
    assert s[0..] == s;
  }

  lemma {:induction false} NoCRFrom(s: string, i: nat)
    requires '\r' !in s && i <= |s|
    ensures UnCr(s, i) == s[i..]
    decreases |s| - i
  {
    if i < |s| {
      assert s[i] in s;
      NoCRFrom(s, i + 1);
      assert s[i..] == [s[i]] + s[i + 1..];
    }
  }

  lemma {:induction false} SplitChars(s: string)
    requires '\r' !in s
    ensures CleanLines(Split(s))
  {
    SplitPieces(s);
    if s != "" {
      SplitChars(s[1..]);
      var rest := Split(s[1..]);
      assert CleanLines([rest[0]]);
    }
  }

  lemma ScannedClean(s: string)
    requires '\r' !in s
    ensures CleanLines(ScanLines(s))
  {
    SplitChars(s);
    var ls, r := Split(s), ScanLines(s);
    forall k | 0 <= k < |r|
      ensures NoNewline(r[k]) && '\r' !in r[k]
    {
      assert DropCR(ls[k]) == ls[k];
    }
  }

  /** A text of clean lines whose last one is not empty scans into those lines. */
  lemma ScanJoined(ls: seq<string>)
    requires |ls| > 0 && CleanLines(ls) && ls[|ls| - 1] != ""
    ensures ScanLines(Collapse(Join(ls))) == ls
  {
    JoinChars(ls);
    NoCR(Join(ls));
    SplitJoin(ls);
    forall k | 0 <= k < |ls|
      ensures DropCR(ls[k]) == ls[k]
    {
      assert ls[k] in ls;
      if ls[k] != "" {
        assert ls[k][|ls[k]| - 1] in ls[k];
      }
    }
  }

  lemma SettledLines(t: string)
    requires Settled(t)
    ensures CleanLines(TextLines(t))
    ensures t != "" ==> |TextLines(t)| > 0 && TextLines(t)[|TextLines(t)| - 1] != ""
  {
    SplitChars(t);
    if t != "" {
      JoinSplit(t);
      LastPiece(Split(t));
    }
  }

  lemma {:induction false} LastPiece(ls: seq<string>)
    requires |ls| > 0
    ensures ls[|ls| - 1] == "" ==> Join(ls) == "" || Join(ls)[|Join(ls)| - 1] == '\n'
  {
    if |ls| > 1 {
      LastPiece(ls[1..]);
    }
  }

  lemma {:induction false} RenderedLines(secs: seq<Section>)
    requires SettledSections(secs)
    ensures var ls := RenderSections(secs);
      CleanLines(ls) && (secs != [] ==> ls != [] && ls[|ls| - 1] != "")
  {
    hide IsH2, TrimRight, Split, Settled;
    if secs != [] {
      assert secs[0] in secs;
      SettledLines(secs[0].body);
      RenderedLines(secs[1..]);
    }
  }

  lemma ReadBack(pre: string, secs: seq<Section>)
    requires Settled(pre) && SettledSections(secs)
    ensures Parse(Render(pre, secs)) == ParseLines(TextLines(pre) + RenderSections(secs))
  {
    SettledLines(pre);
    RenderedLines(secs);
    var ls := TextLines(pre) + RenderSections(secs);
    if ls != [] {
      if RenderSections(secs) == [] {
        assert ls == TextLines(pre);
      } else {
        assert ls[|ls| - 1] == RenderSections(secs)[|RenderSections(secs)| - 1];
      }
      ScanJoined(ls);
    } else {
      assert ScanLines(Collapse("")) == [];
    }
  }

  /** What any parse of a CR-free body looks like. */
  lemma ParseSettles(body: string)
    requires '\r' !in body
    ensures var (pre, secs) := Parse(body); Settled(pre) && SettledSections(secs)
  {
    NoCR(body);
    var ls := ScanLines(body);
    ScannedClean(body);
    var n := Plain(ls);
    AccumSettles(ls[..n]);
    SectionsSettle(ls[n..]);
  }

  lemma PartsRendered(pre: string, secs: seq<Section>)
    requires Settled(pre) && SettledSections(secs) && forall x | x in secs :: x.heading != "##"
    ensures ParseLines(TextLines(pre) + RenderSections(secs)) == (pre, secs)
  {
    var plain := TextLines(pre);
    var ls := plain + RenderSections(secs);
    SectionsRendered(secs);
    assert forall k | 0 <= k < |plain| :: ls[k] == plain[k];
    PlainIs(ls, |plain|);
    assert ls[..|plain|] == plain && ls[|plain|..] == RenderSections(secs);
    SettledReads(pre);
  }

  lemma PartsLost(pre: string, secs: seq<Section>)
    requires Settled(pre) && SettledSections(secs) && exists x :: x in secs && x.heading == "##"
    ensures |ParseLines(TextLines(pre) + RenderSections(secs)).1| < |secs|
  {
    var ls := TextLines(pre) + RenderSections(secs);
    RenderedCount(secs);
    NoH2(TextLines(pre));
    H2Append(TextLines(pre), RenderSections(secs));
    PlainPartH2(ls);
    SectionCount(ls[Plain(ls)..]);
  }

  /** A heading with nothing but blanks after its marks. */
  predicate IsBare(line: string) {
    IsH2(line) && TrimRight(line, BLANK) == "##"
  }

  ghost predicate HasBare(ls: seq<string>) {
    exists k :: 0 <= k < |ls| && IsBare(ls[k])
  }

  lemma BareTail(ls: seq<string>, n: nat)
    requires n <= |ls| && forall k | 0 <= k < n :: !IsBare(ls[k])
    ensures HasBare(ls) <==> HasBare(ls[n..])
  {
    hide IsBare;
    if HasBare(ls) {
      var k :| 0 <= k < |ls| && IsBare(ls[k]);
      assert ls[n..][k - n] == ls[k];
    }
    if HasBare(ls[n..]) {
      var k :| 0 <= k < |ls[n..]| && IsBare(ls[n..][k]);
      assert ls[n + k] == ls[n..][k];
    }
  }

  lemma BareHead(ls: seq<string>)
    requires |ls| > 0
    ensures HasBare(ls) <==> IsBare(ls[0]) || HasBare(ls[1..])
  {
    if !IsBare(ls[0]) {
      BareTail(ls, 1);
    }
    hide IsBare;
  }

  /** The headings of the sections are the heading lines. */
  lemma {:induction false} BareHeadings(ls: seq<string>)
    requires ls != [] ==> IsH2(ls[0])
    ensures (exists x :: x in Sections(ls) && x.heading == "##") <==> HasBare(ls)
    decreases |ls|
  {
    hide IsH2, TrimRight, Accum, HasBare;
    if ls == [] {
      assert !HasBare(ls) by { NoBare(); }
    } else {
      var n := Plain(ls[1..]);
      var x, rest := SectionOf(ls[0], ls[1..1 + n]), ls[1 + n..];
      BareHeadings(rest);
      BareHead(ls);
      BareTail(ls[1..], n);
      assert ls[1..][n..] == rest;
      assert Sections(ls) == [x] + Sections(rest);
      assert x.heading == "##" <==> IsBare(ls[0]);
    }
  }

  lemma NoBare()
    ensures !HasBare([])
  {
  }

  /** Parsing is a normal form exactly when every heading has visible text: rendering the parts and parsing them
      again gives the same parts if and only if no line of the body is a heading with nothing after its marks. */
  lemma ParseIsNormalForm(body: string)
    requires '\r' !in body
    ensures var (pre, secs) := Parse(body);
      && PlainLines(SplitLines(pre))
      && (forall x | x in secs :: PlainLines(SplitLines(x.body)))
      && (Parse(Render(pre, secs)) == (pre, secs) <==> !HasBare(ScanLines(body)))
  {
    var (pre, secs) := Parse(body);
    ParseSettles(body);
    ReadBack(pre, secs);
    NoCR(body);
    var ls := ScanLines(body);
    BareHeadings(ls[Plain(ls)..]);
    BareTail(ls, Plain(ls));
    hide Settled, SettledSections, HasBare, Render;
    if forall x | x in secs :: x.heading != "##" {
      PartsRendered(pre, secs);
    } else {
      PartsLost(pre, secs);
    }
  }

  lemma OneLine(l: string)
    requires CleanLines([l]) && l != ""
    ensures ScanLines(Collapse(l)) == [l] && Accum([l]) == l
  {
    ScanJoined([l]);
    assert [l][..0] == [];
  }

  lemma PlainLine(l: string)
    requires CleanLines([l]) && l != "" && !IsH2(l)
    ensures Parse(l) == (TrimRight(l, TRAILING), [])
  {
    OneLine(l);
    PlainIs([l], 1);
    assert [l][..1] == [l] && [l][1..] == [];
  }

  lemma OneHeading(ls: seq<string>)
    requires |ls| == 1 && IsH2(ls[0])
    ensures ParseLines(ls) == ("", [SectionOf(ls[0], [])])
  {
    assert ls[0..0] == [];
    ScannedStart(ls, 0, "");
    var h := TrimRight(ls[0], BLANK);
    ScannedEnd(ls, 0, "", [], h, "");
    assert [] + [Section(h, "")] == [SectionOf(ls[0], [])];
  }

  lemma RenderOne(x: Section)
    requires x.body == ""
    ensures Render("", [x]) == x.heading
  {
    assert RenderSections([x]) == [x.heading];
  }

  lemma TrimBare()
    ensures TrimRight("## ", BLANK) == "##" && TrimRight("##", TRAILING) == "##"
  {
    assert "## "[..2] == "##";
  }

  /** A bare `##` followed by a blank is a heading the first time and preamble text the second time. */
  lemma BareHeadingIsNotStable()
    ensures Parse("## ") == ("", [Section("##", "")])
    ensures Parse(Render("", [Section("##", "")])) == ("##", [])
  {
    TrimBare();
    OneLine("## ");
    OneHeading(["## "]);
    PlainLine("##");
    RenderOne(Section("##", ""));
  }
}

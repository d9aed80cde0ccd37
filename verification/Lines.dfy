/** Splitting text into lines and joining it again, as Go's `strings.Split(s, "\n")` does. */
module Lines {

  /** The pieces of `s` between newlines; always at least one piece. */
  function Split(s: string): (r: seq<string>)
    ensures |r| > 0
  {
    if s == "" then [""]
    else
      var rest := Split(s[1..]);
      if s[0] == '\n' then [""] + rest else [[s[0]] + rest[0]] + rest[1..]
  }

  function Join(ls: seq<string>): string
    requires |ls| > 0
  {
    if |ls| == 1 then ls[0] else ls[0] + "\n" + Join(ls[1..])
  }

  predicate NoNewline(l: string) {
    '\n' !in l
  }

  /** Every piece is free of newlines. */
  ghost predicate Pieces(ls: seq<string>) {
    forall k | 0 <= k < |ls| :: NoNewline(ls[k])
  }

  lemma {:induction false} SplitPieces(s: string)
    ensures Pieces(Split(s))
  {
    if s != "" {
      SplitPieces(s[1..]);
      var rest := Split(s[1..]);
      assert NoNewline(rest[0]);
    }
  }

  lemma {:induction false} JoinSplit(s: string)
    ensures Join(Split(s)) == s
  {
    if s != "" {
      JoinSplit(s[1..]);
      var rest := Split(s[1..]);
      if s[0] == '\n' {
        assert ([""] + rest)[1..] == rest;
      } else {
        var r := [[s[0]] + rest[0]] + rest[1..];
        assert r[1..] == rest[1..];
        assert s == [s[0]] + s[1..];
      }
    }
  }

  /** A text with no newline splits into itself. */
  lemma {:induction false} SplitSingle(l: string)
    requires NoNewline(l)
    ensures Split(l) == [l]
  {
    if l != "" {
      SplitSingle(l[1..]);
      assert l == [l[0]] + l[1..];
    }
  }

  lemma {:induction false} SplitFirst(l: string, t: string)
    requires NoNewline(l)
    ensures Split(l + "\n" + t) == [l] + Split(t)
  {
    var s := l + "\n" + t;
    if l == "" {
      assert s[0] == '\n' && s[1..] == t;
    } else {
      SplitFirst(l[1..], t);
      assert s[1..] == l[1..] + "\n" + t;
      assert l == [l[0]] + l[1..];
    }
  }

  lemma {:induction false} SplitJoin(ls: seq<string>)
    requires |ls| > 0
    requires Pieces(ls)
    ensures Split(Join(ls)) == ls
  {
    if |ls| == 1 {
      SplitSingle(ls[0]);
    } else {
      SplitJoin(ls[1..]);
      SplitFirst(ls[0], Join(ls[1..]));
    }
  }

  /** `splitLines` of the differ: the empty text has no lines. */
  function SplitLines(s: string): seq<string> {
    if s == "" then [] else Split(s)
  }

  lemma SplitLinesInjective(s: string, t: string)
    requires SplitLines(s) == SplitLines(t)
    ensures s == t
  {
    JoinSplit(s);
    JoinSplit(t);
  }

  /** All trailing characters of `cut` removed: `strings.TrimRight`. */
  function TrimRight(s: string, cut: set<char>): (r: string)
    ensures r <= s
    ensures r == "" || r[|r| - 1] !in cut
    ensures forall k | |r| <= k < |s| :: s[k] in cut
  {
    if s == "" || s[|s| - 1] !in cut then s else TrimRight(s[..|s| - 1], cut)
  }

  /** `strings.ReplaceAll(s, "\r\n", "\n")`, from position `i` on. */
  function UnCr(s: string, i: nat): string
    requires i <= |s|
    decreases |s| - i
  {
    if i == |s| then ""
    else if s[i] == '\r' && i + 1 < |s| && s[i + 1] == '\n' then "\n" + UnCr(s, i + 2)
    else [s[i]] + UnCr(s, i + 1)
  }

  function Collapse(s: string): string {
    UnCr(s, 0)
  }
}

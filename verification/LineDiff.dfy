/** The LCS line differ of internal/diff/section.go, its text form and the counter that reads that text. */
module LineDiff {
  import opened Lines

  datatype OpKind = Equal | Del | Ins
  datatype Op = Op(kind: OpKind, line: string)

  function Max(x: nat, y: nat): nat {
    if x >= y then x else y
  }

  /** The table entry `table[i][j]`. */
  function Lcs(a: seq<string>, b: seq<string>, i: nat, j: nat): nat
    requires i <= |a| && j <= |b|
    decreases i + j
  {
    if i == 0 || j == 0 then 0
    else if a[i - 1] == b[j - 1] then Lcs(a, b, i - 1, j - 1) + 1
    else Max(Lcs(a, b, i - 1, j), Lcs(a, b, i, j - 1))
  }

  /** Which way the back-walk leaves cell `(i, j)`. */
  function Choice(a: seq<string>, b: seq<string>, i: nat, j: nat): OpKind
    requires i <= |a| && j <= |b| && (i > 0 || j > 0)
  {
    if i > 0 && j > 0 && a[i - 1] == b[j - 1] then Equal
    else if i > 0 && (j == 0 || Lcs(a, b, i - 1, j) >= Lcs(a, b, i, j - 1)) then Del
    else Ins
  }

  /** The script the back-walk finds for the first `i` lines of `a` and `j` lines of `b`, in forward order. */
  function Script(a: seq<string>, b: seq<string>, i: nat, j: nat): seq<Op>
    requires i <= |a| && j <= |b|
    decreases i + j
  {
    if i == 0 && j == 0 then []
    else match Choice(a, b, i, j)
      case Equal => Script(a, b, i - 1, j - 1) + [Op(Equal, a[i - 1])]
      case Del => Script(a, b, i - 1, j) + [Op(Del, a[i - 1])]
      case Ins => Script(a, b, i, j - 1) + [Op(Ins, b[j - 1])]
  }

  /** Rows before `rows` of the table are right. */
  ghost predicate Filled(table: array2<int>, a: seq<string>, b: seq<string>, rows: nat)
    reads table
  {
    && table.Length0 == |a| + 1 && table.Length1 == |b| + 1 && rows <= |a| + 1
    && forall x, y | 0 <= x < rows && 0 <= y <= |b| :: table[x, y] == Lcs(a, b, x, y)
  }

  /** The recurrence of one cell. */
  lemma LcsCell(a: seq<string>, b: seq<string>, i: nat, j: nat)
    requires 1 <= i <= |a| && 1 <= j <= |b|
    ensures a[i - 1] == b[j - 1] ==> Lcs(a, b, i, j) == Lcs(a, b, i - 1, j - 1) + 1
    ensures a[i - 1] != b[j - 1] ==> Lcs(a, b, i, j) == Max(Lcs(a, b, i - 1, j), Lcs(a, b, i, j - 1))
    ensures Lcs(a, b, i, 0) == 0
  {
  }

  method FillTable(a: seq<string>, b: seq<string>) returns (table: array2<int>)
    ensures fresh(table) && Filled(table, a, b, |a| + 1)
  {
    table := new int[|a| + 1, |b| + 1]((_, _) => 0);
    for i := 1 to |a| + 1
      invariant Filled(table, a, b, i)
      invariant forall x | 0 <= x <= |a| :: table[x, 0] == 0
    {
      FillRow(a, b, table, i);
    }
  }

  method FillRow(a: seq<string>, b: seq<string>, table: array2<int>, i: nat)
    requires 1 <= i <= |a| && Filled(table, a, b, i) && table[i, 0] == 0
    modifies table
    ensures Filled(table, a, b, i + 1)
    ensures forall x | 0 <= x <= |a| :: table[x, 0] == old(table[x, 0])
  {
    for j := 1 to |b| + 1
      invariant Filled(table, a, b, i)
      invariant forall y | 0 <= y < j :: table[i, y] == Lcs(a, b, i, y)
      invariant forall x | 0 <= x <= |a| :: table[x, 0] == old(table[x, 0])
    {
      LcsCell(a, b, i, j);
      if a[i - 1] == b[j - 1] {
        table[i, j] := table[i - 1, j - 1] + 1;
      } else if table[i - 1, j] >= table[i, j - 1] {
        table[i, j] := table[i - 1, j];
      } else {
        table[i, j] := table[i, j - 1];
      }
    }
  }

  /** `lcsDiff`: fills the table, walks it back from the far corner, then reverses the walk in place. */
  method LcsDiff(a: seq<string>, b: seq<string>) returns (ops: seq<Op>)
    ensures ops == Script(a, b, |a|, |b|)
  {
    if |a| == 0 {
      ops := [];
      for k := 0 to |b|
        invariant ops == Script(a, b, 0, k)
      {
        ops := ops + [Op(Ins, b[k])];
      }
      return;
    }
    if |b| == 0 {
      ops := [];
      for k := 0 to |a|
        invariant ops == Script(a, b, k, 0)
      {
        ops := ops + [Op(Del, a[k])];
      }
      return;
    }
    var table := FillTable(a, b);
    ghost var tail;
    var rev;
    rev, tail := WalkBack(a, b, table);
    var back := new Op[|rev|](k requires 0 <= k < |rev| => rev[k]);
    ReverseInPlace(back);
    ops := back[..];
    assert ops == tail;
  }

  ghost predicate IsReverse(rev: seq<Op>, tail: seq<Op>) {
    |rev| == |tail| && forall k | 0 <= k < |rev| :: tail[k] == rev[|rev| - 1 - k]
  }

  /** The walk back has reached cell `(i, j)`; `tail` is what it wrote to `rev`, in forward order. */
  ghost predicate Walked(a: seq<string>, b: seq<string>, i: int, j: int, rev: seq<Op>, tail: seq<Op>) {
    && 0 <= i <= |a| && 0 <= j <= |b|
    && IsReverse(rev, tail)
    && Script(a, b, |a|, |b|) == Script(a, b, i, j) + tail
  }

  lemma WalkStep(a: seq<string>, b: seq<string>, i: nat, j: nat, rev: seq<Op>, tail: seq<Op>)
    requires i + j > 0 && Walked(a, b, i, j, rev, tail)
    ensures Choice(a, b, i, j) == Equal ==>
              var op := Op(Equal, a[i - 1]); Walked(a, b, i - 1, j - 1, rev + [op], [op] + tail)
    ensures Choice(a, b, i, j) == Del ==>
              var op := Op(Del, a[i - 1]); Walked(a, b, i - 1, j, rev + [op], [op] + tail)
    ensures Choice(a, b, i, j) == Ins ==>
              var op := Op(Ins, b[j - 1]); Walked(a, b, i, j - 1, rev + [op], [op] + tail)
  {
    var k, i', j', line := ScriptStep(a, b, i, j);
    var op := Op(k, line);
    assert Script(a, b, i, j) + tail == Script(a, b, i', j') + ([op] + tail);
    assert Walked(a, b, i', j', rev + [op], [op] + tail);
  }

  method WalkBack(a: seq<string>, b: seq<string>, table: array2<int>) returns (rev: seq<Op>, ghost tail: seq<Op>)
    requires Filled(table, a, b, |a| + 1)
    ensures tail == Script(a, b, |a|, |b|) && IsReverse(rev, tail)
  {
    rev, tail := [], [];
    var i, j := |a|, |b|;
    while i > 0 && j > 0
      invariant Walked(a, b, i, j, rev, tail)
    {
      WalkStep(a, b, i, j, rev, tail);
      var op;
      if a[i - 1] == b[j - 1] {
        op := Op(Equal, a[i - 1]);
        i, j := i - 1, j - 1;
      } else if table[i - 1, j] >= table[i, j - 1] {
        op := Op(Del, a[i - 1]);
        i := i - 1;
      } else {
        op := Op(Ins, b[j - 1]);
        j := j - 1;
      }
      rev, tail := rev + [op], [op] + tail;
    }
    while i > 0
      invariant Walked(a, b, i, j, rev, tail) && (i == 0 || j == 0)
    {
      WalkStep(a, b, i, j, rev, tail);
      var op := Op(Del, a[i - 1]);
      i := i - 1;
      rev, tail := rev + [op], [op] + tail;
    }
    while j > 0
      invariant Walked(a, b, i, j, rev, tail) && i == 0
    {
      WalkStep(a, b, i, j, rev, tail);
      var op := Op(Ins, b[j - 1]);
      j := j - 1;
      rev, tail := rev + [op], [op] + tail;
    }
  }

  /** The closing loop of `lcsDiff`, which swaps the ends inwards. */
  method ReverseInPlace(rev: array<Op>)
    modifies rev
    ensures forall k | 0 <= k < rev.Length :: rev[k] == old(rev[rev.Length - 1 - k])
  {
    var n := rev.Length;
    var left, right := 0, n - 1;
    while left < right
      invariant 0 <= left <= n && left + right == n - 1
      invariant forall k | 0 <= k < left || right < k < n :: rev[k] == old(rev[n - 1 - k])
      invariant forall k | left <= k <= right :: rev[k] == old(rev[k])
    {
      rev[left], rev[right] := rev[right], rev[left];
      left, right := left + 1, right - 1;
    }
  }

  // ---- What a script means ----

  /** The left text: inserted lines dropped. */
  function Olds(ops: seq<Op>): seq<string> {
    if ops == [] then []
    else
      var op := ops[|ops| - 1];
      Olds(ops[..|ops| - 1]) + if op.kind == Ins then [] else [op.line]
  }

  /** The right text: deleted lines dropped. */
  function News(ops: seq<Op>): seq<string> {
    if ops == [] then []
    else
      var op := ops[|ops| - 1];
      News(ops[..|ops| - 1]) + if op.kind == Del then [] else [op.line]
  }

  function Equals(ops: seq<Op>): nat {
    if ops == [] then 0 else Equals(ops[..|ops| - 1]) + if ops[|ops| - 1].kind == Equal then 1 else 0
  }

  function Changed(ops: seq<Op>): nat {
    if ops == [] then 0 else Changed(ops[..|ops| - 1]) + if ops[|ops| - 1].kind == Equal then 0 else 1
  }

  lemma Snoc(s: seq<Op>, op: Op)
    ensures Olds(s + [op]) == Olds(s) + if op.kind == Ins then [] else [op.line]
    ensures News(s + [op]) == News(s) + if op.kind == Del then [] else [op.line]
    ensures Equals(s + [op]) == Equals(s) + if op.kind == Equal then 1 else 0
  {
    assert (s + [op])[..|s|] == s;
  }

  /** One step of the back-walk, with what its choice says about the lines at hand. */
  lemma ScriptStep(a: seq<string>, b: seq<string>, i: nat, j: nat)
    returns (k: OpKind, i': nat, j': nat, line: string)
    requires i <= |a| && j <= |b| && i + j > 0
    ensures k == Choice(a, b, i, j)
    ensures i' == (if k == Ins then i else i - 1) && j' == (if k == Del then j else j - 1)
    ensures k != Ins ==> line == a[i - 1]
    ensures k != Del ==> line == b[j - 1]
    ensures Script(a, b, i, j) == Script(a, b, i', j') + [Op(k, line)]
    ensures Lcs(a, b, i, j) == Lcs(a, b, i', j') + if k == Equal then 1 else 0
  {
    k := Choice(a, b, i, j);
    i' := if k == Ins then i else i - 1;
    j' := if k == Del then j else j - 1;
    line := if k == Ins then b[j - 1] else a[i - 1];
  }

  lemma {:induction false} ScriptOlds(a: seq<string>, b: seq<string>, i: nat, j: nat)
    requires i <= |a| && j <= |b|
    ensures Olds(Script(a, b, i, j)) == a[..i]
    decreases i + j
  {
    if i + j > 0 {
      var k, i', j', line := ScriptStep(a, b, i, j);
      ScriptOlds(a, b, i', j');
      Snoc(Script(a, b, i', j'), Op(k, line));
      assert k != Ins ==> a[..i] == a[..i'] + [line];
    }
  }

  lemma {:induction false} ScriptNews(a: seq<string>, b: seq<string>, i: nat, j: nat)
    requires i <= |a| && j <= |b|
    ensures News(Script(a, b, i, j)) == b[..j]
    decreases i + j
  {
    if i + j > 0 {
      var k, i', j', line := ScriptStep(a, b, i, j);
      ScriptNews(a, b, i', j');
      Snoc(Script(a, b, i', j'), Op(k, line));
      assert k != Del ==> b[..j] == b[..j'] + [line];
    }
  }

  lemma {:induction false} ScriptEquals(a: seq<string>, b: seq<string>, i: nat, j: nat)
    requires i <= |a| && j <= |b|
    ensures Equals(Script(a, b, i, j)) == Lcs(a, b, i, j)
    decreases i + j
  {
    if i + j > 0 {
      var k, i', j', line := ScriptStep(a, b, i, j);
      ScriptEquals(a, b, i', j');
      Snoc(Script(a, b, i', j'), Op(k, line));
    }
  }

  lemma ScriptReplays(a: seq<string>, b: seq<string>)
    ensures var ops := Script(a, b, |a|, |b|);
      Olds(ops) == a && News(ops) == b && Equals(ops) == Lcs(a, b, |a|, |b|)
  {
    ScriptOlds(a, b, |a|, |b|);
    ScriptNews(a, b, |a|, |b|);
    ScriptEquals(a, b, |a|, |b|);
    assert a[..|a|] == a && b[..|b|] == b;
  }

  /** Increasing positions `ia` of `a` and `ib` of `b` that hold the same lines: a common subsequence. */
  ghost predicate CommonSubsequence(a: seq<string>, b: seq<string>, ia: seq<nat>, ib: seq<nat>) {
    && |ia| == |ib|
    && (forall k | 0 <= k < |ia| :: ia[k] < |a| && ib[k] < |b| && a[ia[k]] == b[ib[k]])
    && (forall k, l | 0 <= k < l < |ia| :: ia[k] < ia[l] && ib[k] < ib[l])
  }

  lemma {:induction false} LcsBounds(a: seq<string>, b: seq<string>, i: nat, j: nat, ia: seq<nat>, ib: seq<nat>)
    requires i <= |a| && j <= |b|
    requires CommonSubsequence(a, b, ia, ib)
    requires forall k | 0 <= k < |ia| :: ia[k] < i && ib[k] < j
    ensures |ia| <= Lcs(a, b, i, j)
    decreases i + j
  {
    if |ia| > 0 {
      var n := |ia| - 1;
      assert ia[n] < i && ib[n] < j;
      if a[i - 1] == b[j - 1] {
        forall k | 0 <= k < n
          ensures ia[k] < i - 1 && ib[k] < j - 1
        {
          assert ia[k] < ia[n] && ib[k] < ib[n];
        }
        LcsBounds(a, b, i - 1, j - 1, ia[..n], ib[..n]);
      } else if ia[n] < i - 1 {
        LcsBounds(a, b, i - 1, j, ia, ib);
      } else {
        LcsBounds(a, b, i, j - 1, ia, ib);
      }
    }
  }

  lemma {:induction false} LcsAttained(a: seq<string>, b: seq<string>, i: nat, j: nat)
    returns (ia: seq<nat>, ib: seq<nat>)
    requires i <= |a| && j <= |b|
    ensures CommonSubsequence(a, b, ia, ib) && |ia| == Lcs(a, b, i, j)
    ensures forall k | 0 <= k < |ia| :: ia[k] < i && ib[k] < j
    decreases i + j
  {
    if i == 0 || j == 0 {
      ia, ib := [], [];
    } else if a[i - 1] == b[j - 1] {
      ia, ib := LcsAttained(a, b, i - 1, j - 1);
      ia, ib := ia + [i - 1], ib + [j - 1];
    } else if Lcs(a, b, i - 1, j) >= Lcs(a, b, i, j - 1) {
      ia, ib := LcsAttained(a, b, i - 1, j);
    } else {
      ia, ib := LcsAttained(a, b, i, j - 1);
    }
  }

  /** The differ's script replays both texts, and keeps as many lines as any common subsequence has. */
  lemma LcsDiffIsOptimal(a: seq<string>, b: seq<string>)
    ensures var ops := Script(a, b, |a|, |b|);
      && Olds(ops) == a
      && News(ops) == b
      && (forall ia, ib | CommonSubsequence(a, b, ia, ib) :: |ia| <= Equals(ops))
      && (exists ia, ib :: CommonSubsequence(a, b, ia, ib) && |ia| == Equals(ops))
  {
    ScriptReplays(a, b);
    forall ia, ib | CommonSubsequence(a, b, ia, ib)
      ensures |ia| <= Lcs(a, b, |a|, |b|)
    {
      LcsBounds(a, b, |a|, |b|, ia, ib);
    }
    var ia, ib := LcsAttained(a, b, |a|, |b|);
  }

  lemma {:induction false} AnyScriptKeepsAtMostLcs(a: seq<string>, b: seq<string>, i: nat, j: nat, ops: seq<Op>)
    requires i <= |a| && j <= |b|
    requires Olds(ops) == a[..i] && News(ops) == b[..j]
    ensures Equals(ops) <= Lcs(a, b, i, j)
    decreases |ops|
  {
    if ops != [] {
      var n := |ops| - 1;
      var o, w := Olds(ops[..n]), News(ops[..n]);
      match ops[n].kind {
        case Equal =>
          assert o == a[..i][..i - 1] == a[..i - 1] && w == b[..j][..j - 1] == b[..j - 1];
          assert a[i - 1] == a[..i][i - 1] == ops[n].line == b[..j][j - 1] == b[j - 1];
          AnyScriptKeepsAtMostLcs(a, b, i - 1, j - 1, ops[..n]);
        case Del =>
          assert o == a[..i][..i - 1] == a[..i - 1];
          AnyScriptKeepsAtMostLcs(a, b, i - 1, j, ops[..n]);
          LcsStep(a, b, i - 1, j);
        case Ins =>
          assert w == b[..j][..j - 1] == b[..j - 1];
          AnyScriptKeepsAtMostLcs(a, b, i, j - 1, ops[..n]);
          LcsStep(a, b, i, j - 1);
      }
    }
  }

  /** One more line on either side never shortens the longest common subsequence. */
  lemma LcsStep(a: seq<string>, b: seq<string>, i: nat, j: nat)
    requires i <= |a| && j <= |b|
    ensures i < |a| ==> Lcs(a, b, i, j) <= Lcs(a, b, i + 1, j)
    ensures j < |b| ==> Lcs(a, b, i, j) <= Lcs(a, b, i, j + 1)
  {
    var ia, ib := LcsAttained(a, b, i, j);
    if i < |a| {
      LcsBounds(a, b, i + 1, j, ia, ib);
    }
    if j < |b| {
      LcsBounds(a, b, i, j + 1, ia, ib);
    }
  }

  lemma {:induction false} ChangedCount(ops: seq<Op>)
    ensures Changed(ops) + 2 * Equals(ops) == |Olds(ops)| + |News(ops)|
  {
    if ops != [] {
      ChangedCount(ops[..|ops| - 1]);
    }
  }

  /** No script that turns `a` into `b` has fewer changed lines than the differ's. */
  lemma ScriptIsShortest(a: seq<string>, b: seq<string>, other: seq<Op>)
    requires Olds(other) == a && News(other) == b
    ensures Changed(Script(a, b, |a|, |b|)) <= Changed(other)
  {
    assert a[..|a|] == a && b[..|b|] == b;
    ScriptReplays(a, b);
    AnyScriptKeepsAtMostLcs(a, b, |a|, |b|, other);
    ChangedCount(other);
    ChangedCount(Script(a, b, |a|, |b|));
  }

  /** A replaced block is always shown new lines first: no deletion is directly followed by an insertion. */
  ghost predicate InsertsFirst(ops: seq<Op>) {
    forall k | 0 <= k < |ops| - 1 :: !(ops[k].kind == Del && ops[k + 1].kind == Ins)
  }

  lemma {:induction false} ScriptInsertsFirst(a: seq<string>, b: seq<string>, i: nat, j: nat)
    requires i <= |a| && j <= |b|
    ensures InsertsFirst(Script(a, b, i, j))
    decreases i + j
  {
    if i + j > 0 {
      var k, i', j', line := ScriptStep(a, b, i, j);
      ScriptInsertsFirst(a, b, i', j');
      if k == Ins && i' + j' > 0 {
        NoDelBeforeIns(a, b, i, j);
        var k', _, _, _ := ScriptStep(a, b, i', j');
      }
    }
  }

  /** Where the walk back takes an insertion, its next step is never a deletion. */
  lemma NoDelBeforeIns(a: seq<string>, b: seq<string>, i: nat, j: nat)
    requires i <= |a| && 1 <= j <= |b| && i + j > 1
    requires Choice(a, b, i, j) == Ins
    ensures Choice(a, b, i, j - 1) != Del
  {
    if i > 0 && j > 1 {
      LcsStep(a, b, i - 1, j - 1);
      LcsCell(a, b, i, j - 1);
    }
  }

  // ---- The text form ----

  function Mark(k: OpKind): string {
    match k case Equal => "  " case Del => "- " case Ins => "+ "
  }

  function Rendered(ops: seq<Op>): seq<string> {
    seq(|ops|, k requires 0 <= k < |ops| => Mark(ops[k].kind) + ops[k].line)
  }

  /** Reads the text form back: the first character of each line is its kind, the third on its text. */
  function ParseLine(l: string): Op {
    if |l| < 2 then Op(Equal, "")
    else Op(if l[0] == '-' then Del else if l[0] == '+' then Ins else Equal, l[2..])
  }

  function ParseText(text: string): seq<Op> {
    var ls := SplitLines(text);
    seq(|ls|, k requires 0 <= k < |ls| => ParseLine(ls[k]))
  }

  /** Rendered lines: free of newlines and never empty. */
  ghost predicate Visible(ls: seq<string>) {
    Pieces(ls) && forall k | 0 <= k < |ls| :: |ls[k]| > 0
  }

  /** Every line followed by a newline, as `lineDiff` writes its builder. */
  function Terminated(ls: seq<string>): string {
    if ls == [] then "" else Terminated(ls[..|ls| - 1]) + ls[|ls| - 1] + "\n"
  }

  /** What the text of `lineDiff(from, to)` is, for both branches. */
  function DiffText(from: string, to: string): string {
    if from == to then ""
    else
      var a, b := SplitLines(from), SplitLines(to);
      TrimRight(Terminated(Rendered(Script(a, b, |a|, |b|))), {'\n'})
  }

  lemma {:induction false} TerminatedFirst(ls: seq<string>)
    requires |ls| > 0
    ensures Terminated(ls) == ls[0] + "\n" + Terminated(ls[1..])
  {
    if |ls| > 1 {
      var n := |ls| - 1;
      TerminatedFirst(ls[..n]);
      assert ls[..n][1..] == ls[1..][..n - 1];
      assert Terminated(ls[1..]) == Terminated(ls[1..][..n - 1]) + ls[n] + "\n";
    } else {
      assert ls[..0] == [] && ls[1..] == [];
    }
  }

  lemma {:induction false} TerminatedIsJoin(ls: seq<string>)
    requires |ls| > 0
    ensures Terminated(ls) == Join(ls) + "\n"
  {
    TerminatedFirst(ls);
    if |ls| > 1 {
      TerminatedIsJoin(ls[1..]);
    } else {
      assert ls[1..] == [];
    }
  }

  /** The text of a non-empty list of rendered lines: only the final newline is trimmed. */
  lemma TrimmedText(ls: seq<string>)
    requires |ls| > 0
    requires Visible(ls)
    ensures TrimRight(Terminated(ls), {'\n'}) == Join(ls)
  {
    TerminatedIsJoin(ls);
    var t := Join(ls);
    JoinEndsVisible(ls);
    var r := TrimRight(t + "\n", {'\n'});
    assert (t + "\n")[|t| - 1] == t[|t| - 1] && (t + "\n")[|t|] == '\n';
    assert |r| == |t|;
  }

  lemma {:induction false} JoinEndsVisible(ls: seq<string>)
    requires |ls| > 0
    requires Visible(ls)
    ensures |Join(ls)| > 0 && Join(ls)[|Join(ls)| - 1] != '\n'
  {
    if |ls| == 1 {
      assert ls[0][|ls[0]| - 1] in ls[0];
    } else {
      JoinEndsVisible(ls[1..]);
    }
  }

  /** `lineDiff`: "" for equal texts, otherwise the rendered script. */
  method RenderLineDiff(from: string, to: string) returns (text: string)
    ensures text == DiffText(from, to)
  {
    if from == to {
      return "";
    }
    var a, b := SplitLines(from), SplitLines(to);
    var ops := LcsDiff(a, b);
    var sb := WriteOps(ops);
    text := TrimRight(sb, {'\n'});
  }

  method WriteOps(ops: seq<Op>) returns (sb: string)
    ensures sb == Terminated(Rendered(ops))
  {
    sb := "";
    ghost var r := Rendered(ops);
    for k := 0 to |ops|
      invariant sb == Terminated(r[..k])
    {
      ghost var was := sb;
      match ops[k].kind {
        case Equal => sb := sb + "  ";
        case Del => sb := sb + "- ";
        case Ins => sb := sb + "+ ";
      }
      sb := sb + ops[k].line;
      sb := sb + "\n";
      assert r[..k + 1][..k] == r[..k];
      assert sb == was + r[k] + "\n";
    }
    assert r[..|ops|] == r;
  }

  predicate IsChangeLine(l: string) {
    "+ " <= l || "- " <= l
  }

  function CountMarks(ls: seq<string>): nat {
    if ls == [] then 0 else CountMarks(ls[..|ls| - 1]) + if IsChangeLine(ls[|ls| - 1]) then 1 else 0
  }

  /** `countChangedLines`: counts the marked lines of a rendered diff. */
  method CountChangedLines(diffText: string) returns (n: nat)
    ensures n == CountMarks(SplitLines(diffText))
  {
    n := 0;
    if diffText == "" {
      return;
    }
    var ls := Split(diffText);
    for k := 0 to |ls|
      invariant n == CountMarks(ls[..k])
    {
      assert ls[..k + 1][..k] == ls[..k];
      if "+ " <= ls[k] || "- " <= ls[k] {
        n := n + 1;
      }
    }
    assert ls[..|ls|] == ls;
  }

  lemma {:induction false} ScriptPieces(a: seq<string>, b: seq<string>, i: nat, j: nat)
    requires i <= |a| && j <= |b| && Pieces(a) && Pieces(b)
    ensures var ops := Script(a, b, i, j); forall k | 0 <= k < |ops| :: NoNewline(ops[k].line)
    decreases i + j
  {
    if i + j > 0 {
      var k, i', j', line := ScriptStep(a, b, i, j);
      ScriptPieces(a, b, i', j');
    }
  }

  lemma {:induction false} MarksAreChanges(ops: seq<Op>)
    ensures CountMarks(Rendered(ops)) == Changed(ops)
  {
    if ops != [] {
      var n := |ops| - 1;
      MarksAreChanges(ops[..n]);
      assert Rendered(ops)[..n] == Rendered(ops[..n]);
      var l := Rendered(ops)[n];
      assert l[0] == Mark(ops[n].kind)[0] && l[1] == ' ';
      assert l[..2] == Mark(ops[n].kind);
    }
  }

  lemma RenderedVisible(from: string, to: string)
    ensures var a, b := SplitLines(from), SplitLines(to);
      Visible(Rendered(Script(a, b, |a|, |b|)))
  {
    var a, b := SplitLines(from), SplitLines(to);
    SplitPieces(from);
    SplitPieces(to);
    ScriptPieces(a, b, |a|, |b|);
  }

  lemma ScriptNotEmpty(from: string, to: string)
    requires from != to
    ensures var a, b := SplitLines(from), SplitLines(to);
      Script(a, b, |a|, |b|) != []
  {
    var a, b := SplitLines(from), SplitLines(to);
    if |a| == 0 && |b| == 0 {
      SplitLinesInjective(from, to);
    }
  }

  /** The rendered diff of two different texts, as lines, is exactly the rendered script. */
  lemma TextLines(from: string, to: string)
    requires from != to
    ensures var a, b := SplitLines(from), SplitLines(to);
      SplitLines(DiffText(from, to)) == Rendered(Script(a, b, |a|, |b|))
  {
    RenderedVisible(from, to);
    ScriptNotEmpty(from, to);
    var a, b := SplitLines(from), SplitLines(to);
    var ls := Rendered(Script(a, b, |a|, |b|));
    TrimmedText(ls);
    JoinEndsVisible(ls);
    SplitJoin(ls);
  }

  /** The counter reads the minimal number of changed lines off the text, and 0 only for equal texts. */
  lemma CounterIsMinimalEdit(from: string, to: string)
    ensures var a, b := SplitLines(from), SplitLines(to);
      && CountMarks(SplitLines(DiffText(from, to))) == |a| + |b| - 2 * Lcs(a, b, |a|, |b|)
      && (CountMarks(SplitLines(DiffText(from, to))) == 0 <==> from == to)
  {
    var a, b := SplitLines(from), SplitLines(to);
    var ops := Script(a, b, |a|, |b|);
    LcsDiffIsOptimal(a, b);
    ScriptReplays(a, b);
    ChangedCount(ops);
    if from == to {
      LcsBounds(a, b, |a|, |b|, seq(|a|, k => k), seq(|a|, k => k));
      LcsUpper(a, b, |a|, |b|);
    } else {
      TextLines(from, to);
      MarksAreChanges(ops);
      if Changed(ops) == 0 {
        UnchangedScript(ops);
        SplitLinesInjective(from, to);
      }
    }
  }

  lemma LcsUpper(a: seq<string>, b: seq<string>, i: nat, j: nat)
    requires i <= |a| && j <= |b|
    ensures Lcs(a, b, i, j) <= i
  {
  }

  lemma {:induction false} UnchangedScript(ops: seq<Op>)
    requires Changed(ops) == 0
    ensures Olds(ops) == News(ops)
  {
    if ops != [] {
      UnchangedScript(ops[..|ops| - 1]);
    }
  }

  lemma ParseRendered(ops: seq<Op>)
    ensures |Rendered(ops)| == |ops|
    ensures forall k | 0 <= k < |ops| :: ParseLine(Rendered(ops)[k]) == ops[k]
  {
    forall k | 0 <= k < |ops|
      ensures ParseLine(Rendered(ops)[k]) == ops[k]
    {
      var l := Rendered(ops)[k];
      assert l[0] == Mark(ops[k].kind)[0];
      assert l[2..] == ops[k].line;
    }
  }

  /** The script can be read back from the text. */
  lemma TextRoundTrip(from: string, to: string)
    requires from != to
    ensures var a, b := SplitLines(from), SplitLines(to);
      ParseText(DiffText(from, to)) == Script(a, b, |a|, |b|)
  {
    TextLines(from, to);
    var a, b := SplitLines(from), SplitLines(to);
    ParseRendered(Script(a, b, |a|, |b|));
  }
}

/** What a section diff reports, entry by entry: the old side can be read back, renames are the greedy choice, and each
    entry stands where the source puts it. */
module SectionEntries {
  import opened SectionParser
  import opened SectionDiff
  import LineDiff
  import Lines

  // ---- The old side ----

  /** The `n`-th change with heading `h`, counting from 1. */
  function NthChange(cs: seq<Change>, h: string, n: nat): Change
    requires 1 <= n <= Headed(cs, h)
  {
    var last := |cs| - 1;
    if n <= Headed(cs[..last], h) then NthChange(cs[..last], h, n) else cs[last]
  }

  /** The body of the `n`-th old section headed `h`: what its pair on the new side was changed from - the pair's own
      body when nothing changed -, or what the next removal was of. */
  function OldBody(to: seq<Section>, kept: seq<Change>, gone: seq<Change>, h: string, n: nat): string
    requires Headed(kept, h) == Count(to, h) && 1 <= n <= Count(to, h) + Headed(gone, h)
  {
    if n > Count(to, h) then NthChange(gone, h, n - Count(to, h)).from
    else if NthChange(kept, h, n).status == Unchanged then Nth(to, h, n).body
    else NthChange(kept, h, n).from
  }

  lemma NthOfMore(cs: seq<Change>, c: Change, h: string, n: nat)
    ensures Headed(cs + [c], h) == Headed(cs, h) + One(c.heading == h)
    ensures 1 <= n <= Headed(cs, h) ==> NthChange(cs + [c], h, n) == NthChange(cs, h, n)
    ensures c.heading == h ==> NthChange(cs + [c], h, Headed(cs, h) + 1) == c
  {
    assert (cs + [c])[..|cs|] == cs;
  }

  lemma NthSection(secs: seq<Section>, h: string, n: nat)
    requires 1 <= n <= Count(secs, h)
    ensures var last := |secs| - 1;
      if n <= Count(secs[..last], h) then Nth(secs, h, n) == Nth(secs[..last], h, n)
      else n == Count(secs, h) && secs[last].heading == h && Nth(secs, h, n) == secs[last]
  {
  }

  lemma HeadedAsCounted(from: seq<Section>, to: seq<Section>, h: string)
    ensures Headed(ToChanges(from, to), h) == Count(to, h)
  {
    NewSideIsRebuilt(from, to);
  }

  /** The changes of the new side are, for each heading in order, those of its sections. */
  lemma {:induction false} KeptAre(from: seq<Section>, to: seq<Section>, h: string, n: nat)
    requires 1 <= n <= Count(to, h)
    ensures Headed(ToChanges(from, to), h) == Count(to, h)
    ensures NthChange(ToChanges(from, to), h, n) == PairChange(from, Nth(to, h, n), n)
  {
    hide PairChange, NthChange, Headed, Nth, Rebuild;
    var last := |to| - 1;
    var init, s := to[..last], to[last];
    var cs := ToChanges(from, init);
    var c := PairChange(from, s, Count(to, s.heading));
    HeadedAsCounted(from, to, h);
    HeadedAsCounted(from, init, h);
    assert ToChanges(from, to) == cs + [c];
    hide ToChanges;
    PairHeading(from, s, Count(to, s.heading));
    NthOfMore(cs, c, h, n);
    NthSection(to, h, n);
    if n <= Count(init, h) {
      KeptAre(from, init, h, n);
    }
  }

  lemma PairHeading(from: seq<Section>, s: Section, n: nat)
    requires n >= 1
    ensures PairChange(from, s, n).heading == s.heading
  {
    hide LineDiff.DiffText;
  }

  /** One more old section: it is gone when the new side has fewer of its heading. */
  lemma GoneMore(from: seq<Section>, to: seq<Section>)
    requires from != []
    ensures var s := from[|from| - 1]; var cs := Removals(from[..|from| - 1], to);
      Removals(from, to) == if Count(from, s.heading) <= Count(to, s.heading) then cs
                            else cs + [Change(Removed, s.heading, "", s.body, "", "")]
  {
  }

  lemma CountMore(secs: seq<Section>, h: string)
    requires secs != []
    ensures var last := |secs| - 1; Count(secs, h) == Count(secs[..last], h) + One(secs[last].heading == h)
  {
  }

  lemma {:induction false} GoneCount(from: seq<Section>, to: seq<Section>, h: string)
    ensures Headed(Removals(from, to), h) + Min(Count(from, h), Count(to, h)) == Count(from, h)
  {
    if from == [] {
      assert Removals(from, to) == [];
    } else {
      var s := from[|from| - 1];
      GoneMore(from, to);
      CountMore(from, h);
      hide Removals, Count, Headed;
      GoneCount(from[..|from| - 1], to, h);
      NthOfMore(Removals(from[..|from| - 1], to), Change(Removed, s.heading, "", s.body, "", ""), h, 0);
    }
  }

  /** The removals of heading `h` are, in order, its old sections beyond those the new side has. */
  lemma {:induction false} GoneAre(from: seq<Section>, to: seq<Section>, h: string, n: nat)
    requires Count(to, h) < n <= Count(from, h)
    ensures n - Count(to, h) <= Headed(Removals(from, to), h)
    ensures NthChange(Removals(from, to), h, n - Count(to, h))
         == Change(Removed, h, "", Nth(from, h, n).body, "", "")
  {
    var init, s := from[..|from| - 1], from[|from| - 1];
    GoneCount(from, to, h);
    GoneCount(init, to, h);
    GoneMore(from, to);
    CountMore(from, h);
    NthSection(from, h, n);
    hide Removals, Count, Headed, Nth, NthChange;
    NthOfMore(Removals(init, to), Change(Removed, s.heading, "", s.body, "", ""), h, n - Count(to, h));
    if n <= Count(init, h) {
      GoneAre(init, to, h, n);
    }
  }

  /** Nothing of the old side is lost either: every old section can be read back from the new sections and the
      changes. */
  lemma OldSideIsRebuilt(from: seq<Section>, to: seq<Section>, h: string, n: nat)
    requires 1 <= n <= Count(from, h)
    ensures Headed(ToChanges(from, to), h) == Count(to, h)
    ensures n <= Count(to, h) + Headed(Removals(from, to), h)
    ensures OldBody(to, ToChanges(from, to), Removals(from, to), h, n) == Nth(from, h, n).body
  {
    hide ToChanges, Removals, Nth, NthChange, Headed, Count, PairChange;
    HeadedAsCounted(from, to, h);
    GoneCount(from, to, h);
    if n <= Count(to, h) {
      KeptAre(from, to, h, n);
      NthHeading(to, h, n);
      PairedWith(from, Nth(to, h, n), h, n);
    } else {
      GoneAre(from, to, h, n);
    }
  }

  lemma {:induction false} NthHeading(secs: seq<Section>, h: string, n: nat)
    requires 1 <= n <= Count(secs, h)
    ensures Nth(secs, h, n).heading == h
  {
    var last := |secs| - 1;
    if n <= Count(secs[..last], h) {
      NthHeading(secs[..last], h, n);
    }
  }

  lemma PairedWith(from: seq<Section>, s: Section, h: string, n: nat)
    requires s.heading == h && 1 <= n <= Count(from, h)
    ensures var c := PairChange(from, s, n); var body := Nth(from, h, n).body;
      if c.status == Unchanged then s.body == body else c.from == body
  {
    hide LineDiff.DiffText, Nth;
  }

  // ---- The greedy choice ----

  /** Of the added entries not used yet the best fit, and of equally good ones the first. */
  lemma {:induction false} BestIsFirst(changes: seq<Change>, sim: Similarity, r: nat, adds: seq<nat>, used: set<nat>)
    requires r < |changes| && Below(adds, |changes|) && Increasing(adds)
    ensures var b := BestAdd(changes, sim, r, adds, used);
      b.Best? ==> forall a | a in adds && a !in used ::
        var fit := Fit(changes, sim, r, a); fit < b.score || (fit == b.score && b.add <= a)
    decreases |adds|
  {
    if adds != [] {
      var n := |adds| - 1;
      BestIsFirst(changes, sim, r, adds[..n], used);
      var b := BestAdd(changes, sim, r, adds[..n], used);
      assert forall a | a in adds :: a in adds[..n] || a == adds[n];
      LastIsGreatest(adds, n);
    }
  }

  lemma LastIsGreatest(xs: seq<nat>, n: nat)
    requires Increasing(xs) && n < |xs|
    ensures forall x | x in xs[..n] :: x < xs[n]
  {
  }

  /** What the removed entries before `r` took. */
  ghost function TakenBefore(p: map<nat, nat>, r: nat): set<nat> {
    set q | q in p && q < r :: p[q]
  }

  /** `r` got the best of what was left, or nothing of what was left reaches the threshold. */
  ghost predicate Greedy(changes: seq<Change>, sim: Similarity, adds: seq<nat>, p: map<nat, nat>, r: nat)
    requires r < |changes| && Below(adds, |changes|)
  {
    if r in p then
      && p[r] in adds && p[r] !in TakenBefore(p, r) && Fit(changes, sim, r, p[r]) >= THRESHOLD
      && forall a | a in adds && a !in TakenBefore(p, r) ::
           Fit(changes, sim, r, a) < Fit(changes, sim, r, p[r])
           || (Fit(changes, sim, r, a) == Fit(changes, sim, r, p[r]) && p[r] <= a)
    else forall a | a in adds && a !in TakenBefore(p, r) :: Fit(changes, sim, r, a) < THRESHOLD
  }

  lemma GreedyStays(changes: seq<Change>, sim: Similarity, adds: seq<nat>, p: map<nat, nat>, r: nat, s: nat, a: nat)
    requires r < s < |changes| && Below(adds, |changes|) && Greedy(changes, sim, adds, p, r)
    ensures Greedy(changes, sim, adds, p[s := a], r)
  {
    SameBefore(p, r, s, a);
  }

  lemma SameBefore(p: map<nat, nat>, r: nat, s: nat, a: nat)
    requires r <= s
    ensures TakenBefore(p[s := a], r) == TakenBefore(p, r)
  {
    var q := p[s := a];
    forall v | v in TakenBefore(p, r)
      ensures v in TakenBefore(q, r)
    {
      var x :| x in p && x < r && p[x] == v;
      assert x in q && q[x] == v;
    }
    forall v | v in TakenBefore(q, r)
      ensures v in TakenBefore(p, r)
    {
      var x :| x in q && x < r && q[x] == v;
      assert x in p && p[x] == v;
    }
  }

  lemma AllBefore(p: map<nat, nat>, r: nat, a: nat)
    requires forall q | q in p :: q < r
    ensures TakenBefore(p, r) == p.Values && TakenBefore(p[r := a], r) == p.Values
  {
    forall v | v in p.Values
      ensures v in TakenBefore(p, r)
    {
      var q :| q in p && p[q] == v;
    }
    SameBefore(p, r, r, a);
  }

  /** The pairing takes the removed entries in order, and gives each the best added entry that is left, the first of
      equally good ones. */
  lemma {:induction false} PairsAreGreedy(changes: seq<Change>, sim: Similarity, rems: seq<nat>, adds: seq<nat>, r: nat)
    requires Below(rems, |changes|) && Below(adds, |changes|) && Increasing(rems) && Increasing(adds) && r in rems
    ensures Greedy(changes, sim, adds, Pairs(changes, sim, rems, adds), r)
    decreases |rems|
  {
    hide Greedy, BestAdd;
    var n := |rems| - 1;
    var last := rems[n];
    var p := Pairs(changes, sim, rems[..n], adds);
    var b := BestAdd(changes, sim, last, adds, p.Values);
    PairsSound(changes, sim, rems[..n], adds);
    LastIsGreatest(rems, n);
    if r == last {
      BestIsGreedy(changes, sim, adds, p, last);
    } else {
      PairsAreGreedy(changes, sim, rems[..n], adds, r);
      if b.Best? {
        GreedyStays(changes, sim, adds, p, r, last, b.add);
      }
    }
  }

  lemma BestIsGreedy(changes: seq<Change>, sim: Similarity, adds: seq<nat>, p: map<nat, nat>, r: nat)
    requires r < |changes| && Below(adds, |changes|) && Increasing(adds) && forall q | q in p :: q < r
    ensures var b := BestAdd(changes, sim, r, adds, p.Values);
      Greedy(changes, sim, adds, if b.Best? && b.score >= THRESHOLD then p[r := b.add] else p, r)
  {
    BestIsFirst(changes, sim, r, adds, p.Values);
    var b := BestAdd(changes, sim, r, adds, p.Values);
    AllBefore(p, r, if b.Best? then b.add else 0);
  }

  lemma RenamesAreGreedy(changes: seq<Change>, sim: Similarity, r: nat)
    requires r < |changes| && changes[r].status == Removed
    ensures Greedy(changes, sim, Indices(changes, Added, |changes|), RenamePairs(changes, sim), r)
  {
    hide Greedy;
    PairsAreGreedy(changes, sim, Indices(changes, Removed, |changes|), Indices(changes, Added, |changes|), r);
  }

  // ---- Each entry of the result ----

  lemma {:induction false} ReplacedGrows(changes: seq<Change>, p: map<nat, nat>, i: nat, k: nat)
    requires i <= k <= |changes| && forall r | r in p :: p[r] < |changes|
    ensures Replaced(changes, p, i) <= Replaced(changes, p, k)
    decreases k - i
  {
    hide Piece;
    if i < k {
      ReplacedGrows(changes, p, i, k - 1);
    }
  }

  /** What became of the `i`-th change: a paired removal is, in its place, a rename - under both headings, with both
      bodies and, if they differ, a line diff that reads back to exactly them -, its added entry is gone, and any other
      entry stands as it is. */
  lemma EntryAfterRenames(changes: seq<Change>, sim: Similarity, i: nat)
    requires i < |changes|
    ensures var p := RenamePairs(changes, sim); var out := WithRenames(changes, sim);
      && (forall r | r in p :: p[r] < |changes|)
      && var n, m := |Replaced(changes, p, i)|, |Replaced(changes, p, i + 1)|;
      && m <= |out|
      && (i in p ==> m == n + 1 && IsRename(changes[i], changes[p[i]], out[n]))
      && (i in p.Values && i !in p ==> m == n)
      && (i !in p && i !in p.Values ==> m == n + 1 && out[n] == changes[i])
  {
    hide IsRename, RenameOf, RenamePairs, Replaced;
    RenamePairsSound(changes, sim);
    var p := RenamePairs(changes, sim);
    ReplacedGrows(changes, p, i + 1, |changes|);
    ReplacedMore(changes, p, i);
    if i in p {
      RenameCarriesBoth(changes[i], changes[p[i]]);
    }
  }

  lemma ReplacedMore(changes: seq<Change>, p: map<nat, nat>, i: nat)
    requires i < |changes| && forall r | r in p :: p[r] < |changes|
    ensures Replaced(changes, p, i + 1) == Replaced(changes, p, i) + Piece(changes, p, i)
  {
  }

  ghost predicate IsRename(c: Change, added: Change, r: Change) {
    && r.status == Renamed && r.oldHeading == c.heading && r.heading == added.heading
    && r.from == c.from && r.to == added.to
    && (r.lineDiff == "" <==> c.from == added.to)
    && (c.from != added.to ==>
          && LineDiff.Olds(LineDiff.ParseText(r.lineDiff)) == Lines.SplitLines(c.from)
          && LineDiff.News(LineDiff.ParseText(r.lineDiff)) == Lines.SplitLines(added.to))
  }

  lemma RenameCarriesBoth(c: Change, added: Change)
    ensures IsRename(c, added, RenameOf(c, added))
  {
    hide LineDiff.DiffText, LineDiff.ParseText, LineDiff.Script;
    if c.from != added.to {
      LineDiff.TextRoundTrip(c.from, added.to);
      LineDiff.ScriptReplays(Lines.SplitLines(c.from), Lines.SplitLines(added.to));
      DiffTextNotEmpty(c.from, added.to);
    }
  }

  lemma DiffTextNotEmpty(from: string, to: string)
    requires from != to
    ensures LineDiff.DiffText(from, to) != ""
  {
    hide LineDiff.Script, LineDiff.DiffText;
    LineDiff.TextRoundTrip(from, to);
    LineDiff.ScriptNotEmpty(from, to);
    assert LineDiff.ParseText("") == [];
  }
}

/** Pairing of sections by heading and the rename pass of internal/diff/section.go. */
module SectionDiff {
  import opened SectionParser
  import LineDiff
  import Lines

  datatype Status = Unchanged | Added | Removed | Modified | Renamed
  datatype Change = Change(status: Status, heading: string, oldHeading: string,
                           from: string, to: string, lineDiff: string)

  /** The word-overlap score of two bodies; only its comparisons matter here. */
  type Similarity = (string, string) -> real

  const THRESHOLD: real := 0.7

  /** How many of `secs` carry heading `h`. */
  function Count(secs: seq<Section>, h: string): nat {
    if secs == [] then 0
    else Count(secs[..|secs| - 1], h) + if secs[|secs| - 1].heading == h then 1 else 0
  }

  /** The `n`-th section with heading `h`, counting from 1. */
  function Nth(secs: seq<Section>, h: string, n: nat): Section
    requires 1 <= n <= Count(secs, h)
  {
    var last := |secs| - 1;
    if n <= Count(secs[..last], h) then Nth(secs[..last], h, n) else secs[last]
  }

  /** How the `n`-th section `s` of its heading on the new side is reported. */
  function PairChange(from: seq<Section>, s: Section, n: nat): Change
    requires n >= 1
  {
    if n > Count(from, s.heading) then Change(Added, s.heading, "", "", s.body, "")
    else
      var f := Nth(from, s.heading, n);
      if f.body == s.body then Change(Unchanged, s.heading, "", "", "", "")
      else Change(Modified, s.heading, "", f.body, s.body, LineDiff.DiffText(f.body, s.body))
  }

  function ToChanges(from: seq<Section>, to: seq<Section>): seq<Change> {
    if to == [] then []
    else
      var s := to[|to| - 1];
      ToChanges(from, to[..|to| - 1]) + [PairChange(from, s, Count(to, s.heading))]
  }

  function Removals(from: seq<Section>, to: seq<Section>): seq<Change> {
    if from == [] then []
    else
      var s := from[|from| - 1];
      Removals(from[..|from| - 1], to) +
      if Count(from, s.heading) <= Count(to, s.heading) then []
      else [Change(Removed, s.heading, "", s.body, "", "")]
  }

  type Key = (string, nat)

  /** What `indexed` builds: each section under its heading and its ordinal on that side. */
  ghost predicate Indexed(secs: seq<Section>, m: map<Key, Section>, counts: map<string, nat>) {
    && (forall h :: Tally(counts, h) == Count(secs, h))
    && (forall h, n: nat :: (h, n) in m <==> 1 <= n <= Count(secs, h))
    && (forall h, n: nat | (h, n) in m :: 1 <= n <= Count(secs, h) && m[(h, n)] == Nth(secs, h, n))
  }

  function Tally(counts: map<string, nat>, h: string): nat {
    if h in counts then counts[h] else 0
  }

  lemma CountSnoc(secs: seq<Section>, k: nat, h: string)
    requires k < |secs|
    ensures Count(secs[..k + 1], h) == Count(secs[..k], h) + if secs[k].heading == h then 1 else 0
  {
    assert secs[..k + 1][..k] == secs[..k];
  }

  lemma IndexStep(secs: seq<Section>, k: nat, m: map<Key, Section>, counts: map<string, nat>)
    requires k < |secs| && Indexed(secs[..k], m, counts)
    ensures var s := secs[k]; var n := Tally(counts, s.heading) + 1;
      Indexed(secs[..k + 1], m[(s.heading, n) := s], counts[s.heading := n])
  {
    var s, was, now := secs[k], secs[..k], secs[..k + 1];
    var n := Tally(counts, s.heading) + 1;
    assert now[..k] == was;
    forall h
      ensures Count(now, h) == Count(was, h) + if s.heading == h then 1 else 0
    {
      CountSnoc(secs, k, h);
    }
    var m', counts' := m[(s.heading, n) := s], counts[s.heading := n];
    assert Tally(counts, s.heading) == Count(was, s.heading);
    forall h
      ensures Tally(counts', h) == Count(now, h)
    {
      assert Tally(counts, h) == Count(was, h);
    }
  }

  method BuildIndex(secs: seq<Section>) returns (m: map<Key, Section>)
    ensures exists counts :: Indexed(secs, m, counts)
  {
    m := map[];
    var counts: map<string, nat> := map[];
    assert secs[..0] == [];
    for k := 0 to |secs|
      invariant Indexed(secs[..k], m, counts)
    {
      var s := secs[k];
      IndexStep(secs, k, m, counts);
      counts := counts[s.heading := Tally(counts, s.heading) + 1];
      m := m[(s.heading, counts[s.heading]) := s];
    }
    assert secs[..|secs|] == secs;
  }

  /** `diffSections`: the new side in order, then what is left of the old side, then renames. */
  method DiffSections(from: seq<Section>, to: seq<Section>, sim: Similarity) returns (out: seq<Change>)
    ensures out == WithRenames(ToChanges(from, to) + Removals(from, to), sim)
  {
    var fromMap := BuildIndex(from);
    var emitted, out1 := EmitNewSide(from, to, fromMap);
    var out2 := EmitRemovals(from, to, emitted);
    out := DetectRenames(out1 + out2, sim);
  }

  /** The running tallies of one side after its first `k` sections. */
  ghost predicate Tallied(secs: seq<Section>, k: nat, counts: map<string, nat>)
    requires k <= |secs|
  {
    forall h :: Tally(counts, h) == Count(secs[..k], h)
  }

  ghost predicate Marked(secs: seq<Section>, k: nat, emitted: set<Key>)
    requires k <= |secs|
  {
    forall h, n: nat :: Has(emitted, h, n) <==> 1 <= n <= Count(secs[..k], h)
  }

  predicate Has(emitted: set<Key>, h: string, n: nat) {
    (h, n) in emitted
  }

  lemma TallyStep(secs: seq<Section>, k: nat, counts: map<string, nat>)
    requires k < |secs| && Tallied(secs, k, counts)
    ensures var n := Tally(counts, secs[k].heading) + 1;
      && n == Count(secs[..k + 1], secs[k].heading)
      && Tallied(secs, k + 1, counts[secs[k].heading := n])
  {
    var counts' := counts[secs[k].heading := Tally(counts, secs[k].heading) + 1];
    CountSnoc(secs, k, secs[k].heading);
    forall h
      ensures Tally(counts', h) == Count(secs[..k + 1], h)
    {
      CountSnoc(secs, k, h);
      assert Tally(counts, h) == Count(secs[..k], h);
    }
  }

  lemma MarkStep(secs: seq<Section>, k: nat, emitted: set<Key>)
    requires k < |secs| && Marked(secs, k, emitted)
    ensures Marked(secs, k + 1, emitted + {(secs[k].heading, Count(secs[..k + 1], secs[k].heading))})
  {
    var key: Key := (secs[k].heading, Count(secs[..k + 1], secs[k].heading));
    var now := emitted + {key};
    forall h, n: nat
      ensures Has(now, h, n) <==> 1 <= n <= Count(secs[..k + 1], h)
    {
      CountSnoc(secs, k, h);
      assert Has(now, h, n) <==> Has(emitted, h, n) || key == (h, n);
      assert Has(emitted, h, n) <==> 1 <= n <= Count(secs[..k], h);
      if h == secs[k].heading {
        assert key == (h, n) <==> n == Count(secs[..k], h) + 1;
      } else {
        assert key != (h, n);
      }
    }
    assert Marked(secs, k + 1, now);
    assert now == emitted + {(secs[k].heading, Count(secs[..k + 1], secs[k].heading))};
  }

  method EmitNewSide(from: seq<Section>, to: seq<Section>, fromMap: map<Key, Section>)
    returns (emitted: set<Key>, out: seq<Change>)
    requires exists counts :: Indexed(from, fromMap, counts)
    ensures out == ToChanges(from, to)
    ensures Marked(to, |to|, emitted)
  {
    out, emitted := [], {};
    var toCounts: map<string, nat> := map[];
    for k := 0 to |to|
      invariant out == ToChanges(from, to[..k])
      invariant Tallied(to, k, toCounts)
      invariant Marked(to, k, emitted)
    {
      var s := to[k];
      TallyStep(to, k, toCounts);
      MarkStep(to, k, emitted);
      assert to[..k + 1][..k] == to[..k];
      var n := Tally(toCounts, s.heading) + 1;
      toCounts := toCounts[s.heading := n];
      emitted := emitted + {(s.heading, n)};
      var c := EmitPair(from, fromMap, s, n);
      out := out + [c];
    }
    assert to[..|to|] == to;
  }

  method EmitPair(from: seq<Section>, fromMap: map<Key, Section>, s: Section, n: nat) returns (c: Change)
    requires n >= 1 && exists counts :: Indexed(from, fromMap, counts)
    ensures c == PairChange(from, s, n)
  {
    if (s.heading, n) !in fromMap {
      return Change(Added, s.heading, "", "", s.body, "");
    }
    var fs := fromMap[(s.heading, n)];
    if fs.body == s.body {
      return Change(Unchanged, s.heading, "", "", "", "");
    }
    var text := LineDiff.RenderLineDiff(fs.body, s.body);
    return Change(Modified, s.heading, "", fs.body, s.body, text);
  }

  method EmitRemovals(from: seq<Section>, to: seq<Section>, emitted: set<Key>) returns (out: seq<Change>)
    requires Marked(to, |to|, emitted)
    ensures out == Removals(from, to)
  {
    out := [];
    var fromCounts: map<string, nat> := map[];
    assert to[..|to|] == to;
    for k := 0 to |from|
      invariant out == Removals(from[..k], to)
      invariant Tallied(from, k, fromCounts)
    {
      var s := from[k];
      TallyStep(from, k, fromCounts);
      assert from[..k + 1][..k] == from[..k];
      var n := Tally(fromCounts, s.heading) + 1;
      fromCounts := fromCounts[s.heading := n];
      if !Has(emitted, s.heading, n) {
        out := out + [Change(Removed, s.heading, "", s.body, "", "")];
      }
    }
    assert from[..|from|] == from;
  }

  // ---- Renames ----

  ghost predicate Below(xs: seq<nat>, n: nat) {
    forall k | 0 <= k < |xs| :: xs[k] < n
  }

  ghost predicate Increasing(xs: seq<nat>) {
    forall x, y | 0 <= x < y < |xs| :: xs[x] < xs[y]
  }

  function Indices(changes: seq<Change>, st: Status, k: nat): (r: seq<nat>)
    requires k <= |changes|
    ensures forall i :: i in r <==> 0 <= i < k && changes[i].status == st
    ensures Below(r, k) && Increasing(r)
  {
    if k == 0 then []
    else Indices(changes, st, k - 1) + if changes[k - 1].status == st then [k - 1] else []
  }

  datatype Best = NoBest | Best(add: nat, score: real)

  function Score(b: Best): real {
    if b.NoBest? then 0.0 else b.score
  }

  /** The first of the highest-scoring added entries not used yet. */
  function BestAdd(changes: seq<Change>, sim: Similarity, rem: nat, adds: seq<nat>, used: set<nat>): (b: Best)
    requires rem < |changes| && Below(adds, |changes|)
    ensures b.Best? ==>
              b.add in adds && b.add !in used && b.score > 0.0
              && b.score == sim(changes[rem].from, changes[b.add].to)
    ensures forall a | a in adds && a !in used :: sim(changes[rem].from, changes[a].to) <= Score(b)
  {
    if adds == [] then NoBest
    else
      var a := adds[|adds| - 1];
      var b := BestAdd(changes, sim, rem, adds[..|adds| - 1], used);
      if a in used then b
      else
        var s := sim(changes[rem].from, changes[a].to);
        if s > Score(b) then Best(a, s) else b
  }

  /** The greedy pairing over the first `k` removed entries. */
  function Pairs(changes: seq<Change>, sim: Similarity, rems: seq<nat>, adds: seq<nat>): (p: map<nat, nat>)
    requires Below(rems, |changes|) && Below(adds, |changes|)
    decreases |rems|
  {
    if rems == [] then map[]
    else
      var r := rems[|rems| - 1];
      var p := Pairs(changes, sim, rems[..|rems| - 1], adds);
      var b := BestAdd(changes, sim, r, adds, p.Values);
      if b.Best? && b.score >= THRESHOLD then p[r := b.add] else p
  }

  function RenamePairs(changes: seq<Change>, sim: Similarity): map<nat, nat> {
    Pairs(changes, sim, Indices(changes, Removed, |changes|), Indices(changes, Added, |changes|))
  }

  function RenameOf(c: Change, added: Change): Change {
    Change(Renamed, added.heading, c.heading, c.from, added.to,
           if c.from != added.to then LineDiff.DiffText(c.from, added.to) else "")
  }

  /** The first `k` entries with every paired removal turned into a rename and its added entry dropped. */
  function Replaced(changes: seq<Change>, pairs: map<nat, nat>, k: nat): seq<Change>
    requires k <= |changes| && forall r | r in pairs :: pairs[r] < |changes|
  {
    if k == 0 then []
    else Replaced(changes, pairs, k - 1) + Piece(changes, pairs, k - 1)
  }

  function Piece(changes: seq<Change>, pairs: map<nat, nat>, i: nat): seq<Change>
    requires i < |changes| && forall r | r in pairs :: pairs[r] < |changes|
  {
    if i in pairs then [RenameOf(changes[i], changes[pairs[i]])]
    else if i in pairs.Values then []
    else [changes[i]]
  }

  function Fit(changes: seq<Change>, sim: Similarity, r: nat, a: nat): real
    requires r < |changes| && a < |changes|
  {
    sim(changes[r].from, changes[a].to)
  }

  ghost predicate Injective(p: map<nat, nat>) {
    forall r, s | r in p && s in p && p[r] == p[s] :: r == s
  }

  /** What stays unpaired on both sides does not fit. */
  ghost predicate Leftover(changes: seq<Change>, sim: Similarity, rems: set<nat>, adds: seq<nat>, p: map<nat, nat>)
    requires Below(adds, |changes|) && forall r | r in rems :: r < |changes|
  {
    forall r | r in rems && r !in p ::
      forall k | 0 <= k < |adds| && adds[k] !in p.Values :: Fit(changes, sim, r, adds[k]) < THRESHOLD
  }

  /** Paired entries clear the threshold, no added entry is used twice, and what stays unpaired is below it. */
  ghost predicate GoodPairs(changes: seq<Change>, sim: Similarity, rems: set<nat>, adds: seq<nat>, p: map<nat, nat>)
    requires Below(adds, |changes|) && forall r | r in rems :: r < |changes|
  {
    && (forall r | r in p :: r in rems && p[r] in adds && Fit(changes, sim, r, p[r]) >= THRESHOLD)
    && Injective(p)
    && Leftover(changes, sim, rems, adds, p)
  }

  ghost function Elements(xs: seq<nat>): set<nat> {
    set x | x in xs
  }

  lemma {:induction false} PairsSound(changes: seq<Change>, sim: Similarity, rems: seq<nat>, adds: seq<nat>)
    requires Below(rems, |changes|) && Below(adds, |changes|) && Increasing(rems)
    ensures GoodPairs(changes, sim, Elements(rems), adds, Pairs(changes, sim, rems, adds))
    decreases |rems|
  {
    if rems != [] {
      var n := |rems| - 1;
      PairsSound(changes, sim, rems[..n], adds);
      assert Elements(rems) == Elements(rems[..n]) + {rems[n]};
      PairMore(changes, sim, Elements(rems[..n]), rems[n], adds, Pairs(changes, sim, rems[..n], adds));
    }
  }

  lemma ValuesWith(p: map<nat, nat>, r: nat, a: nat)
    requires r !in p
    ensures p[r := a].Values == p.Values + {a}
  {
    var q := p[r := a];
    assert q[r] == a;
    forall v | v in p.Values
      ensures v in q.Values
    {
      var s :| s in p && p[s] == v;
      assert q[s] == v;
    }
  }

  lemma PairMore(changes: seq<Change>, sim: Similarity, rems: set<nat>, r: nat, adds: seq<nat>, p: map<nat, nat>)
    requires Below(adds, |changes|) && r < |changes| && r !in rems && forall x | x in rems :: x < |changes|
    requires GoodPairs(changes, sim, rems, adds, p)
    ensures var b := BestAdd(changes, sim, r, adds, p.Values);
      GoodPairs(changes, sim, rems + {r}, adds, if b.Best? && b.score >= THRESHOLD then p[r := b.add] else p)
  {
    var b := BestAdd(changes, sim, r, adds, p.Values);
    if b.Best? && b.score >= THRESHOLD {
      ValuesWith(p, r, b.add);
      NewPairInjective(p, r, b.add);
      NewPairLeftover(changes, sim, rems, r, adds, p, b.add);
    } else {
      NoPairLeftover(changes, sim, rems, r, adds, p);
    }
  }

  lemma NewPairInjective(p: map<nat, nat>, r: nat, a: nat)
    requires Injective(p) && r !in p && a !in p.Values
    ensures Injective(p[r := a])
  {
    var q := p[r := a];
    forall x, y | x in q && y in q && q[x] == q[y]
      ensures x == y
    {
      assert x != r ==> q[x] in p.Values;
      assert y != r ==> q[y] in p.Values;
    }
  }

  lemma NewPairLeftover(changes: seq<Change>, sim: Similarity, rems: set<nat>, r: nat, adds: seq<nat>,
                        p: map<nat, nat>, a: nat)
    requires Below(adds, |changes|) && r < |changes| && r !in p && forall x | x in rems :: x < |changes|
    requires Leftover(changes, sim, rems, adds, p)
    ensures Leftover(changes, sim, rems + {r}, adds, p[r := a])
  {
    ValuesWith(p, r, a);
  }

  lemma NoPairLeftover(changes: seq<Change>, sim: Similarity, rems: set<nat>, r: nat, adds: seq<nat>,
                       p: map<nat, nat>)
    requires Below(adds, |changes|) && r < |changes| && forall x | x in rems :: x < |changes|
    requires Leftover(changes, sim, rems, adds, p)
    requires Score(BestAdd(changes, sim, r, adds, p.Values)) < THRESHOLD
    ensures Leftover(changes, sim, rems + {r}, adds, p)
  {
    forall k | 0 <= k < |adds| && adds[k] !in p.Values
      ensures Fit(changes, sim, r, adds[k]) < THRESHOLD
    {
      assert adds[k] in adds;
    }
  }

  lemma RenamePairsSound(changes: seq<Change>, sim: Similarity)
    ensures var p := RenamePairs(changes, sim);
      && (forall r | r in p :: r < |changes| && changes[r].status == Removed)
      && (forall r | r in p :: p[r] < |changes| && changes[p[r]].status == Added)
      && (forall r, s | r in p && s in p && p[r] == p[s] :: r == s)
  {
    PairsSound(changes, sim, Indices(changes, Removed, |changes|), Indices(changes, Added, |changes|));
  }

  ghost function WithRenames(changes: seq<Change>, sim: Similarity): seq<Change> {
    RenamePairsSound(changes, sim);
    Replaced(changes, RenamePairs(changes, sim), |changes|)
  }

  /** `detectRenames`: greedy pairing of removed with added entries, then one pass that rewrites the list. */
  method DetectRenames(changes: seq<Change>, sim: Similarity) returns (out: seq<Change>)
    ensures out == WithRenames(changes, sim)
  {
    var rems, adds := CollectIndices(changes);
    RenamePairsSound(changes, sim);
    if |rems| == 0 || |adds| == 0 {
      NoPairs(changes, sim);
      return changes;
    }
    var pairs := PairUp(changes, sim, rems, adds);
    if |pairs| == 0 {
      Untouched(changes, pairs, |changes|);
      assert changes[..|changes|] == changes;
      return changes;
    }
    out := Rewrite(changes, pairs);
  }

  method Rewrite(changes: seq<Change>, pairs: map<nat, nat>) returns (out: seq<Change>)
    requires forall r | r in pairs :: pairs[r] < |changes|
    ensures out == Replaced(changes, pairs, |changes|)
  {
    out := [];
    var skipAdd := pairs.Values;
    for i := 0 to |changes|
      invariant out == Replaced(changes, pairs, i)
    {
      if i in pairs {
        var c, added := changes[i], changes[pairs[i]];
        var text := "";
        if c.from != added.to {
          text := LineDiff.RenderLineDiff(c.from, added.to);
        }
        out := out + [Change(Renamed, added.heading, c.heading, c.from, added.to, text)];
      } else if i !in skipAdd {
        out := out + [changes[i]];
      }
    }
  }

  method CollectIndices(changes: seq<Change>) returns (rems: seq<nat>, adds: seq<nat>)
    ensures rems == Indices(changes, Removed, |changes|)
    ensures adds == Indices(changes, Added, |changes|)
  {
    rems, adds := [], [];
    for i := 0 to |changes|
      invariant rems == Indices(changes, Removed, i)
      invariant adds == Indices(changes, Added, i)
    {
      match changes[i].status {
        case Removed => rems := rems + [i];
        case Added => adds := adds + [i];
        case _ =>
      }
    }
  }

  method PairUp(changes: seq<Change>, sim: Similarity, rems: seq<nat>, adds: seq<nat>)
    returns (pairs: map<nat, nat>)
    requires Below(rems, |changes|) && Below(adds, |changes|)
    ensures pairs == Pairs(changes, sim, rems, adds)
  {
    pairs := map[];
    var used: set<nat> := {};
    for x := 0 to |rems|
      invariant pairs == Pairs(changes, sim, rems[..x], adds)
      invariant used == pairs.Values
    {
      assert rems[..x + 1][..x] == rems[..x];
      var best := FindBest(changes, sim, rems[x], adds, used);
      if best.Best? && best.score >= THRESHOLD {
        pairs := pairs[rems[x] := best.add];
        used := pairs.Values;
      }
    }
    assert rems[..|rems|] == rems;
  }

  method FindBest(changes: seq<Change>, sim: Similarity, r: nat, adds: seq<nat>, used: set<nat>)
    returns (best: Best)
    requires r < |changes| && Below(adds, |changes|)
    ensures best == BestAdd(changes, sim, r, adds, used)
  {
    best := NoBest;
    for y := 0 to |adds|
      invariant best == BestAdd(changes, sim, r, adds[..y], used)
    {
      assert adds[..y + 1][..y] == adds[..y];
      var a := adds[y];
      if a !in used {
        var s := sim(changes[r].from, changes[a].to);
        if s > Score(best) {
          best := Best(a, s);
        }
      }
    }
    assert adds[..|adds|] == adds;
  }

  lemma NoPairs(changes: seq<Change>, sim: Similarity)
    requires Indices(changes, Removed, |changes|) == [] || Indices(changes, Added, |changes|) == []
    ensures WithRenames(changes, sim) == changes
  {
    RenamePairsSound(changes, sim);
    var p := RenamePairs(changes, sim);
    assert p == map[] by {
      PairsSound(changes, sim, Indices(changes, Removed, |changes|), Indices(changes, Added, |changes|));
    }
    Untouched(changes, p, |changes|);
    assert changes[..|changes|] == changes;
  }

  lemma {:induction false} Untouched(changes: seq<Change>, p: map<nat, nat>, k: nat)
    requires k <= |changes| && p == map[]
    ensures Replaced(changes, p, k) == changes[..k]
  {
    if k > 0 {
      Untouched(changes, p, k - 1);
    }
  }

  /** No likely rename is missed: a removed and an added entry that both stay are below the threshold. */
  lemma NoRenameMissed(changes: seq<Change>, sim: Similarity, r: nat, a: nat)
    requires r < |changes| && changes[r].status == Removed && r !in RenamePairs(changes, sim)
    requires a < |changes| && changes[a].status == Added && a !in RenamePairs(changes, sim).Values
    ensures sim(changes[r].from, changes[a].to) < THRESHOLD
  {
    var adds := Indices(changes, Added, |changes|);
    PairsSound(changes, sim, Indices(changes, Removed, |changes|), adds);
    var k :| 0 <= k < |adds| && adds[k] == a;
    assert Fit(changes, sim, r, adds[k]) < THRESHOLD;
  }

  // ---- Conservation ----

  function One(b: bool): nat {
    if b then 1 else 0
  }

  /** Whether a change stands for a section headed `h` on the old side. */
  predicate OldSide(c: Change, h: string) {
    match c.status
    case Unchanged | Modified | Removed => c.heading == h
    case Renamed => c.oldHeading == h
    case Added => false
  }

  /** Whether a change stands for a section headed `h` on the new side. */
  predicate NewSide(c: Change, h: string) {
    c.status != Removed && c.heading == h
  }

  predicate BothSides(c: Change, h: string) {
    (c.status == Unchanged || c.status == Modified) && c.heading == h
  }

  /** How many of the first `k` changes stand for `h` on the old side, on the new side, and on both at once. */
  function OldsTo(s: seq<Change>, k: nat, h: string): nat
    requires k <= |s|
  {
    if k == 0 then 0 else OldsTo(s, k - 1, h) + One(OldSide(s[k - 1], h))
  }

  function NewsTo(s: seq<Change>, k: nat, h: string): nat
    requires k <= |s|
  {
    if k == 0 then 0 else NewsTo(s, k - 1, h) + One(NewSide(s[k - 1], h))
  }

  function MatchedTo(s: seq<Change>, k: nat, h: string): nat
    requires k <= |s|
  {
    if k == 0 then 0 else MatchedTo(s, k - 1, h) + One(BothSides(s[k - 1], h))
  }

  function Olds(s: seq<Change>, h: string): nat {
    OldsTo(s, |s|, h)
  }

  function News(s: seq<Change>, h: string): nat {
    NewsTo(s, |s|, h)
  }

  function Matched(s: seq<Change>, h: string): nat {
    MatchedTo(s, |s|, h)
  }

  function Min(x: nat, y: nat): nat {
    if x <= y then x else y
  }

  lemma {:induction false} PrefixCounts(a: seq<Change>, b: seq<Change>, k: nat, h: string)
    requires k <= |a|
    ensures OldsTo(a + b, k, h) == OldsTo(a, k, h)
    ensures NewsTo(a + b, k, h) == NewsTo(a, k, h)
    ensures MatchedTo(a + b, k, h) == MatchedTo(a, k, h)
  {
    if k > 0 {
      PrefixCounts(a, b, k - 1, h);
    }
  }

  lemma {:induction false} AppendTo(a: seq<Change>, b: seq<Change>, k: nat, h: string)
    requires k <= |b|
    ensures OldsTo(a + b, |a| + k, h) == Olds(a, h) + OldsTo(b, k, h)
    ensures NewsTo(a + b, |a| + k, h) == News(a, h) + NewsTo(b, k, h)
    ensures MatchedTo(a + b, |a| + k, h) == Matched(a, h) + MatchedTo(b, k, h)
  {
    if k == 0 {
      PrefixCounts(a, b, |a|, h);
    } else {
      AppendTo(a, b, k - 1, h);
      assert (a + b)[|a| + k - 1] == b[k - 1];
    }
  }

  lemma Append(a: seq<Change>, b: seq<Change>, h: string)
    ensures Olds(a + b, h) == Olds(a, h) + Olds(b, h)
    ensures News(a + b, h) == News(a, h) + News(b, h)
    ensures Matched(a + b, h) == Matched(a, h) + Matched(b, h)
  {
    AppendTo(a, b, |b|, h);
  }

  lemma Snoc(s: seq<Change>, c: Change, h: string)
    ensures Olds(s + [c], h) == Olds(s, h) + One(OldSide(c, h))
    ensures News(s + [c], h) == News(s, h) + One(NewSide(c, h))
    ensures Matched(s + [c], h) == Matched(s, h) + One(BothSides(c, h))
  {
    PrefixCounts(s, [c], |s|, h);
  }

  lemma {:induction false} NewSideCounts(from: seq<Section>, to: seq<Section>, h: string)
    ensures var out := ToChanges(from, to);
      && Olds(out, h) == Min(Count(from, h), Count(to, h))
      && News(out, h) == Count(to, h)
      && Matched(out, h) == Min(Count(from, h), Count(to, h))
  {
    if to != [] {
      var n := |to| - 1;
      NewSideCounts(from, to[..n], h);
      var c := PairChange(from, to[n], Count(to, to[n].heading));
      Snoc(ToChanges(from, to[..n]), c, h);
      assert c.heading == to[n].heading;
    }
  }

  lemma {:induction false} RemovalCounts(from: seq<Section>, to: seq<Section>, h: string)
    ensures var out := Removals(from, to);
      && Olds(out, h) == Count(from, h) - Min(Count(from, h), Count(to, h))
      && News(out, h) == 0
      && Matched(out, h) == 0
  {
    if from != [] {
      var n := |from| - 1;
      RemovalCounts(from[..n], to, h);
      var s := from[n];
      if Count(from, s.heading) > Count(to, s.heading) {
        Snoc(Removals(from[..n], to), Change(Removed, s.heading, "", s.body, "", ""), h);
      } else {
        assert Removals(from, to) == Removals(from[..n], to);
      }
    }
  }

  ghost predicate PairsOf(changes: seq<Change>, p: map<nat, nat>) {
    && (forall r | r in p :: r < |changes| && changes[r].status == Removed)
    && (forall r | r in p :: p[r] < |changes| && changes[p[r]].status == Added)
    && (forall r, s | r in p && s in p && p[r] == p[s] :: r == s)
  }

  /** How often renames in the first `k` places bring heading `h` in. */
  function Gained(changes: seq<Change>, p: map<nat, nat>, k: nat, h: string): nat
    requires forall r | r in p :: p[r] < |changes|
  {
    if k == 0 then 0
    else Gained(changes, p, k - 1, h) + One(k - 1 in p && changes[p[k - 1]].heading == h)
  }

  /** How many added entries headed `h` are dropped from the first `k` places. */
  function Dropped(changes: seq<Change>, added: set<nat>, k: nat, h: string): nat
    requires k <= |changes|
  {
    if k == 0 then 0
    else Dropped(changes, added, k - 1, h) + One(k - 1 in added && changes[k - 1].heading == h)
  }

  lemma {:induction false} GainedWithout(changes: seq<Change>, p: map<nat, nat>, r: nat, k: nat, h: string)
    requires PairsOf(changes, p) && r in p && k <= |changes|
    ensures Gained(changes, p, k, h) ==
            Gained(changes, p - {r}, k, h) + One(r < k && changes[p[r]].heading == h)
  {
    if k > 0 {
      GainedWithout(changes, p, r, k - 1, h);
    }
  }

  lemma {:induction false} DroppedWithout(changes: seq<Change>, added: set<nat>, a: nat, k: nat, h: string)
    requires a in added && a < |changes| && k <= |changes|
    ensures Dropped(changes, added, k, h) ==
            Dropped(changes, added - {a}, k, h) + One(a < k && changes[a].heading == h)
  {
    if k > 0 {
      DroppedWithout(changes, added, a, k - 1, h);
    }
  }

  lemma {:induction false} NothingMoves(changes: seq<Change>, k: nat, h: string)
    requires k <= |changes|
    ensures Gained(changes, map[], k, h) == Dropped(changes, {}, k, h) == 0
  {
    if k > 0 {
      NothingMoves(changes, k - 1, h);
    }
  }

  lemma ValuesWithout(p: map<nat, nat>, r: nat)
    requires r in p && forall x, y | x in p && y in p && p[x] == p[y] :: x == y
    ensures (p - {r}).Values == p.Values - {p[r]}
  {
    var q := p - {r};
    forall v
      ensures v in q.Values <==> v in p.Values && v != p[r]
    {
      if v in p.Values && v != p[r] {
        var s :| s in p && p[s] == v;
        assert s in q && q[s] == v;
      }
    }
  }

  /** Each heading a rename brings in is the heading of exactly one dropped entry. */
  lemma {:induction false} GainedIsDropped(changes: seq<Change>, p: map<nat, nat>, h: string)
    requires PairsOf(changes, p)
    ensures Gained(changes, p, |changes|, h) == Dropped(changes, p.Values, |changes|, h)
    decreases |p|
  {
    if p == map[] {
      NothingMoves(changes, |changes|, h);
      assert p.Values == {};
    } else {
      var r :| r in p;
      ValuesWithout(p, r);
      assert |p - {r}| == |p| - 1;
      GainedIsDropped(changes, p - {r}, h);
      GainedWithout(changes, p, r, |changes|, h);
      DroppedWithout(changes, p.Values, p[r], |changes|, h);
    }
  }

  lemma PieceCounts(changes: seq<Change>, p: map<nat, nat>, i: nat, h: string)
    requires PairsOf(changes, p) && i < |changes|
    ensures Olds(Piece(changes, p, i), h) == One(OldSide(changes[i], h))
    ensures Matched(Piece(changes, p, i), h) == One(BothSides(changes[i], h))
    ensures News(Piece(changes, p, i), h) + One(i in p.Values && changes[i].heading == h)
         == One(NewSide(changes[i], h)) + One(i in p && changes[p[i]].heading == h)
  {
    if i in p {
      assert changes[i].status == Removed && i !in p.Values;
      Snoc([], RenameOf(changes[i], changes[p[i]]), h);
      assert [] + [RenameOf(changes[i], changes[p[i]])] == Piece(changes, p, i);
    } else if i in p.Values {
      assert changes[i].status == Added;
    } else {
      Snoc([], changes[i], h);
      assert [] + [changes[i]] == Piece(changes, p, i);
    }
  }

  lemma ReplacedStep(changes: seq<Change>, p: map<nat, nat>, i: nat, h: string)
    requires PairsOf(changes, p) && i < |changes|
    ensures var was, now := Replaced(changes, p, i), Replaced(changes, p, i + 1);
      && Olds(now, h) == Olds(was, h) + One(OldSide(changes[i], h))
      && Matched(now, h) == Matched(was, h) + One(BothSides(changes[i], h))
      && News(now, h) + One(i in p.Values && changes[i].heading == h)
         == News(was, h) + One(NewSide(changes[i], h)) + One(i in p && changes[p[i]].heading == h)
  {
    var was, piece := Replaced(changes, p, i), Piece(changes, p, i);
    Append(was, piece, h);
    PieceCounts(changes, p, i, h);
    assert Replaced(changes, p, i + 1) == was + piece;
  }

  lemma {:induction false} ReplacedCounts(changes: seq<Change>, p: map<nat, nat>, k: nat, h: string)
    requires PairsOf(changes, p) && k <= |changes|
    ensures Olds(Replaced(changes, p, k), h) == OldsTo(changes, k, h)
    ensures Matched(Replaced(changes, p, k), h) == MatchedTo(changes, k, h)
    ensures News(Replaced(changes, p, k), h) + Dropped(changes, p.Values, k, h)
         == NewsTo(changes, k, h) + Gained(changes, p, k, h)
  {
    if k > 0 {
      ReplacedCounts(changes, p, k - 1, h);
      ReplacedStep(changes, p, k - 1, h);
    } else {
      assert Replaced(changes, p, k) == [];
    }
  }

  /** The diff conserves both sides: for every heading `h`, its changes read from the old side count the old
      sections headed `h`, those read from the new side the new ones, and `h` is matched as often as both
      sides have it. */
  lemma DiffConserves(from: seq<Section>, to: seq<Section>, sim: Similarity, h: string)
    ensures var out := WithRenames(ToChanges(from, to) + Removals(from, to), sim);
      && Olds(out, h) == Count(from, h)
      && News(out, h) == Count(to, h)
      && Matched(out, h) == Min(Count(from, h), Count(to, h))
  {
    var a, b := ToChanges(from, to), Removals(from, to);
    Append(a, b, h);
    NewSideCounts(from, to, h);
    RemovalCounts(from, to, h);
    RenamesConserve(a + b, sim, h);
  }

  lemma RenamesConserve(changes: seq<Change>, sim: Similarity, h: string)
    ensures var out := WithRenames(changes, sim);
      && Olds(out, h) == Olds(changes, h)
      && News(out, h) == News(changes, h)
      && Matched(out, h) == Matched(changes, h)
  {
    var p := RenamePairs(changes, sim);
    RenamePairsSound(changes, sim);
    ReplacedCounts(changes, p, |changes|, h);
    GainedIsDropped(changes, p, h);
  }

  // ---- Round trip ----

  function Headed(cs: seq<Change>, h: string): nat {
    if cs == [] then 0 else Headed(cs[..|cs| - 1], h) + One(cs[|cs| - 1].heading == h)
  }

  /** The body a change of the new side stands for, when it is the `n`-th with its heading. */
  function Restored(from: seq<Section>, c: Change, n: nat): string {
    if c.status == Unchanged && 1 <= n <= Count(from, c.heading) then Nth(from, c.heading, n).body else c.to
  }

  /** The new sections, from the old ones and the changes of the new side alone. */
  function Rebuild(from: seq<Section>, cs: seq<Change>): seq<Section> {
    if cs == [] then []
    else
      var c := cs[|cs| - 1];
      Rebuild(from, cs[..|cs| - 1]) + [Section(c.heading, Restored(from, c, Headed(cs, c.heading)))]
  }

  lemma RebuildSnoc(from: seq<Section>, cs: seq<Change>, c: Change)
    ensures Rebuild(from, cs + [c])
         == Rebuild(from, cs) + [Section(c.heading, Restored(from, c, Headed(cs, c.heading) + 1))]
    ensures forall h :: Headed(cs + [c], h) == Headed(cs, h) + One(c.heading == h)
  {
    hide Restored;
    assert (cs + [c])[..|cs|] == cs;
  }

  lemma RestoredBody(from: seq<Section>, s: Section, n: nat)
    requires n >= 1
    ensures PairChange(from, s, n).heading == s.heading && Restored(from, PairChange(from, s, n), n) == s.body
  {
    hide LineDiff.DiffText;
  }

  /** Pairing loses nothing of the new side: before renames are detected, headings, bodies and order can be rebuilt
      from the changes and the old sections. (Afterwards a renamed section stands where the removed one stood.) */
  lemma {:induction false} NewSideIsRebuilt(from: seq<Section>, to: seq<Section>)
    ensures Rebuild(from, ToChanges(from, to)) == to
    ensures forall h :: Headed(ToChanges(from, to), h) == Count(to, h)
  {
    hide PairChange, Restored, Rebuild, Headed;
    if to != [] {
      var init, s := to[..|to| - 1], to[|to| - 1];
      NewSideIsRebuilt(from, init);
      var n := Count(to, s.heading);
      RebuildSnoc(from, ToChanges(from, init), PairChange(from, s, n));
      RestoredBody(from, s, n);
      assert to == init + [s];
    } else {
      NothingRebuilt(from);
    }
  }

  lemma NothingRebuilt(from: seq<Section>)
    ensures Rebuild(from, []) == [] && forall h :: Headed([], h) == 0
  {
  }

  /** A modified section carries both bodies, and a line diff that reads back to exactly them. */
  lemma ModifiedCarriesBoth(from: seq<Section>, s: Section, n: nat)
    requires n >= 1 && PairChange(from, s, n).status == Modified
    ensures var c := PairChange(from, s, n);
      && n <= Count(from, s.heading) && c.from == Nth(from, s.heading, n).body && c.to == s.body && c.from != c.to
      && LineDiff.Olds(LineDiff.ParseText(c.lineDiff)) == Lines.SplitLines(c.from)
      && LineDiff.News(LineDiff.ParseText(c.lineDiff)) == Lines.SplitLines(c.to)
  {
    hide LineDiff.DiffText, LineDiff.ParseText, LineDiff.Script;
    var c := PairChange(from, s, n);
    LineDiff.TextRoundTrip(c.from, c.to);
    LineDiff.ScriptReplays(Lines.SplitLines(c.from), Lines.SplitLines(c.to));
  }
}

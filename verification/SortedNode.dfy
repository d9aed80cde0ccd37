/** Writing the Extra map of a page (`sortedNode` and `sortedMapping` of internal/schema/frontmatter.go): the text
    depends on what the maps hold, not on the order Go iterates them in or on how an unstable sort places equal
    entries. */
module SortedNode {
  /** A scalar Go value and its YAML encoding. */
  type Scalar(==, !new)

  /** `yaml.Node.Encode` of a scalar: its tag and its text. */
  const EncodeScalar: Scalar -> (string, string)

  datatype Entry = Entry(key: Scalar, value: Value)

  /** A value of Extra. The entries of a map come in the order of one iteration over it; two NaN keys are two
      entries. */
  datatype Value = Leaf(x: Scalar) | List(items: seq<Value>) | Map(entries: seq<Entry>)

  datatype Pair = Pair(key: Node, value: Node)

  datatype Node = ScalarNode(tag: string, text: string) | SequenceNode(items: seq<Node>) | MappingNode(pairs: seq<Pair>)

  /** `yaml.Marshal` of a node. */
  const Marshal: Node -> string

  ghost predicate SameTexts(xs: seq<Node>, ys: seq<Node>) {
    |xs| == |ys| && forall i | 0 <= i < |xs| :: Marshal(xs[i]) == Marshal(ys[i])
  }

  /** The encoder writes a node from the texts of its parts: parts that are written alike can be exchanged. */
  ghost predicate Compositional() {
    && (forall xs: seq<Node>, ys: seq<Node> | SameTexts(xs, ys) ::
          Marshal(SequenceNode(xs)) == Marshal(SequenceNode(ys)))
    && (forall ps: seq<Pair>, qs: seq<Pair> | Keyed(ps) == Keyed(qs) ::
          Marshal(MappingNode(ps)) == Marshal(MappingNode(qs)))
  }

  /** A merge key is written as a string. */
  function LeafNode(x: Scalar): Node {
    var (tag, text) := EncodeScalar(x);
    ScalarNode(if tag == "!!merge" then "!!str" else tag, text)
  }

  // ---- The order of entries ----

  /** Byte order of strings, from position `i` on. */
  predicate Before(a: string, b: string, i: nat)
    decreases |a| - i
  {
    if i >= |b| then false
    else if i >= |a| then true
    else if a[i] != b[i] then a[i] < b[i]
    else Before(a, b, i + 1)
  }

  predicate Less(a: string, b: string) {
    Before(a, b, 0)
  }

  /** What an entry is ordered and written by: its key, and the text of its value. */
  datatype Shown = Shown(key: Node, text: string)

  function Show(p: Pair): Shown {
    Shown(p.key, Marshal(p.value))
  }

  function Keyed(ps: seq<Pair>): (r: seq<Shown>)
    ensures |r| == |ps|
  {
    seq(|ps|, i requires 0 <= i < |ps| => Show(ps[i]))
  }

  predicate ShownLess(a: Shown, b: Shown)
    requires a.key.ScalarNode? && b.key.ScalarNode?
  {
    if a.key.tag != b.key.tag then Less(a.key.tag, b.key.tag)
    else if a.key.text != b.key.text then Less(a.key.text, b.key.text)
    else Less(a.text, b.text)
  }

  predicate ScalarKeys(ps: seq<Pair>) {
    forall i | 0 <= i < |ps| :: ps[i].key.ScalarNode?
  }

  /** What any correct sort, stable or not, leaves. */
  predicate Sorted(ps: seq<Pair>)
    requires ScalarKeys(ps)
  {
    forall i, j | 0 <= i < j < |ps| :: !ShownLess(Show(ps[j]), Show(ps[i]))
  }

  // ---- sortedNode ----

  /** `sortedNode(v)` may return `n`: a mapping's pairs are the built ones, in any sorted order. */
  ghost predicate Builds(v: Value, n: Node)
    decreases v, 1
  {
    match v
    case Leaf(x) => n == LeafNode(x)
    case List(items) =>
      n.SequenceNode? && |n.items| == |items| && forall i | 0 <= i < |items| :: Builds(items[i], n.items[i])
    case Map(es) =>
      && n.MappingNode? && ScalarKeys(n.pairs) && Sorted(n.pairs)
      && exists ms: seq<Pair> :: BuiltAs(v, ms) && multiset(n.pairs) == multiset(ms)
  }

  /** The pairs of a map's entries, in iteration order. */
  ghost predicate BuiltAs(v: Value, ms: seq<Pair>)
    requires v.Map?
    decreases v, 0
  {
    && |ms| == |v.entries|
    && forall i | 0 <= i < |ms| :: ms[i].key == LeafNode(v.entries[i].key) && Builds(v.entries[i].value, ms[i].value)
  }

  /** The same content: maps hold the same entries, in whatever order. */
  ghost predicate Same(v: Value, w: Value)
    decreases w, 1
  {
    match w
    case Leaf(_) => v == w
    case List(items) => v.List? && |v.items| == |items| && forall i | 0 <= i < |items| :: Same(v.items[i], items[i])
    case Map(_) => v.Map? && exists gs: seq<Entry> :: multiset(gs) == multiset(v.entries) && SameEntries(gs, w)
  }

  ghost predicate SameEntries(gs: seq<Entry>, w: Value)
    requires w.Map?
    decreases w, 0
  {
    && |gs| == |w.entries|
    && forall i | 0 <= i < |gs| :: gs[i].key == w.entries[i].key && Same(gs[i].value, w.entries[i].value)
  }

  // ---- The order leaves no choice but among equal texts ----

  lemma {:induction false} Trichotomy(a: string, b: string, i: nat)
    requires i <= |a| && i <= |b| && a[..i] == b[..i] && !Before(a, b, i) && !Before(b, a, i)
    ensures a == b
    decreases |a| - i
  {
    if i < |a| && i < |b| {
      assert a[..i + 1] == a[..i] + [a[i]] && b[..i + 1] == b[..i] + [b[i]];
      Trichotomy(a, b, i + 1);
    } else {
      assert a[..i] == a && b[..i] == b;
    }
  }

  lemma Decided(a: Shown, b: Shown)
    requires a.key.ScalarNode? && b.key.ScalarNode? && !ShownLess(a, b) && !ShownLess(b, a)
    ensures a == b
  {
    hide Before;
    if a.key.tag != b.key.tag {
      Trichotomy(a.key.tag, b.key.tag, 0);
    } else if a.key.text != b.key.text {
      Trichotomy(a.key.text, b.key.text, 0);
    } else {
      Trichotomy(a.text, b.text, 0);
    }
  }

  ghost predicate InOrder(xs: seq<Shown>) {
    && (forall i | 0 <= i < |xs| :: xs[i].key.ScalarNode?)
    && forall i, j | 0 <= i < j < |xs| :: !ShownLess(xs[j], xs[i])
  }

  // ---- The order is ascending byte order ----

  /** At position `k` the texts part: `a` ends there, or has the smaller character. */
  ghost predicate PartAt(a: string, b: string, k: nat) {
    k <= |a| && k < |b| && a[..k] == b[..k] && (k == |a| || a[k] < b[k])
  }

  lemma {:induction false} PartIsBefore(a: string, b: string, i: nat, k: nat)
    requires i <= k && PartAt(a, b, k)
    ensures Before(a, b, i)
    decreases k - i
  {
    if i < k {
      assert a[i] == a[..k][i] && b[i] == b[..k][i];
      PartIsBefore(a, b, i + 1, k);
    }
  }

  lemma {:induction false} BeforeParts(a: string, b: string, i: nat) returns (k: nat)
    requires i <= |a| && i <= |b| && a[..i] == b[..i] && Before(a, b, i)
    ensures PartAt(a, b, k)
    decreases |a| - i
  {
    k := i;
    if i < |a| && a[i] == b[i] {
      assert a[..i + 1] == a[..i] + [a[i]] && b[..i + 1] == b[..i] + [b[i]];
      k := BeforeParts(a, b, i + 1);
    }
  }

  ghost predicate Ascends(a: string, b: string) {
    exists k :: PartAt(a, b, k)
  }

  lemma LessIff(a: string, b: string)
    ensures Less(a, b) <==> Ascends(a, b)
  {
    if Less(a, b) {
      var k := BeforeParts(a, b, 0);
    }
    if k :| PartAt(a, b, k) {
      PartIsBefore(a, b, 0, k);
    }
  }

  /** In every mapping that is built the keys ascend by tag, then by text; and of keys written alike the values' texts
      do not descend. */
  lemma MappingAscends(v: Value, n: Node, i: nat, j: nat)
    requires v.Map? && Builds(v, n) && i < j < |n.pairs|
    ensures n.pairs[i].key.ScalarNode? && n.pairs[j].key.ScalarNode?
    ensures var a, b := n.pairs[i], n.pairs[j];
      || Ascends(a.key.tag, b.key.tag)
      || (a.key.tag == b.key.tag && Ascends(a.key.text, b.key.text))
      || (a.key == b.key && !Ascends(Marshal(b.value), Marshal(a.value)))
  {
    var a, b := n.pairs[i], n.pairs[j];
    assert !ShownLess(Show(b), Show(a));
    LessIff(b.key.tag, a.key.tag);
    LessIff(a.key.tag, b.key.tag);
    LessIff(b.key.text, a.key.text);
    LessIff(a.key.text, b.key.text);
    LessIff(Marshal(b.value), Marshal(a.value));
    if a.key.tag != b.key.tag && !Less(a.key.tag, b.key.tag) && !Less(b.key.tag, a.key.tag) {
      Trichotomy(a.key.tag, b.key.tag, 0);
    }
    if a.key.text != b.key.text && !Less(a.key.text, b.key.text) && !Less(b.key.text, a.key.text) {
      Trichotomy(a.key.text, b.key.text, 0);
    }
    hide Before, Builds, Ascends;
  }

  /** Nothing that is built reads back as a merge key; any other scalar is written as it is encoded. */
  lemma NoMergeKey(x: Scalar)
    ensures var n := LeafNode(x); var (tag, text) := EncodeScalar(x);
      n.tag != "!!merge" && n.text == text && (tag == "!!merge" || n.tag == tag)
  {
  }

  // ---- Permutations ----

  function Without<T>(xs: seq<T>, k: nat): (r: seq<T>)
    requires k < |xs|
    ensures |r| == |xs| - 1
  {
    xs[..k] + xs[k + 1..]
  }

  lemma WithoutCounts<T>(xs: seq<T>, k: nat)
    requires k < |xs|
    ensures multiset(xs) == multiset{xs[k]} + multiset(Without(xs, k))
  {
    assert xs == xs[..k] + ([xs[k]] + xs[k + 1..]);
  }

  lemma HeadCounts<T>(xs: seq<T>)
    requires xs != []
    ensures multiset(xs) == multiset{xs[0]} + multiset(xs[1..])
  {
    assert xs == [xs[0]] + xs[1..];
  }

  /** Where the head of a permuted list stands in the other. */
  lemma HeadIn<T>(xs: seq<T>, ys: seq<T>) returns (k: nat)
    requires xs != [] && multiset(xs) == multiset(ys)
    ensures k < |ys| && ys[k] == xs[0] && multiset(xs[1..]) == multiset(Without(ys, k))
  {
    assert xs[0] in multiset(ys);
    k :| 0 <= k < |ys| && ys[k] == xs[0];
    HeadCounts(xs);
    WithoutCounts(ys, k);
    assert multiset(xs[1..]) == multiset(xs) - multiset{xs[0]};
    assert multiset(Without(ys, k)) == multiset(ys) - multiset{xs[0]};
  }

  lemma FirstIsSame(xs: seq<Shown>, ys: seq<Shown>)
    requires InOrder(xs) && InOrder(ys) && multiset(xs) == multiset(ys) && xs != []
    ensures ys != [] && xs[0] == ys[0]
  {
    hide ShownLess;
    var i := HeadIn(xs, ys);
    var j := HeadIn(ys, xs);
    if i > 0 && j > 0 {
      Decided(xs[0], ys[0]);
    }
  }

  lemma RestInOrder(xs: seq<Shown>)
    requires InOrder(xs) && xs != []
    ensures InOrder(xs[1..])
  {
    hide ShownLess;
  }

  /** Two sorted lists of the same entries are the same list. */
  lemma {:induction false} SortIsUnique(xs: seq<Shown>, ys: seq<Shown>)
    requires InOrder(xs) && InOrder(ys) && multiset(xs) == multiset(ys)
    ensures xs == ys
  {
    hide InOrder;
    if xs == [] {
      assert |multiset(ys)| == 0;
      assert ys == [];
    } else {
      FirstIsSame(xs, ys);
      RestInOrder(xs);
      RestInOrder(ys);
      HeadCounts(xs);
      HeadCounts(ys);
      assert multiset(xs[1..]) == multiset(xs) - multiset{xs[0]};
      assert multiset(ys[1..]) == multiset(ys) - multiset{xs[0]};
      SortIsUnique(xs[1..], ys[1..]);
      assert xs == [xs[0]] + xs[1..] && ys == [ys[0]] + ys[1..];
    }
  }

  lemma {:induction false} KeyedCounts(ps: seq<Pair>, qs: seq<Pair>)
    requires multiset(ps) == multiset(qs)
    ensures multiset(Keyed(ps)) == multiset(Keyed(qs))
  {
    hide Show;
    if ps == [] {
      assert |multiset(qs)| == 0;
      assert qs == [];
    } else {
      var k := HeadIn(ps, qs);
      KeyedCounts(ps[1..], Without(qs, k));
      assert Keyed(ps)[1..] == Keyed(ps[1..]);
      assert Without(Keyed(qs), k) == Keyed(Without(qs, k));
      HeadCounts(Keyed(ps));
      WithoutCounts(Keyed(qs), k);
    }
  }

  /** One entry and the pair built from it. */
  ghost predicate From(e: Entry, m: Pair) {
    m.key == LeafNode(e.key) && Builds(e.value, m.value)
  }

  ghost predicate AllFrom(es: seq<Entry>, ms: seq<Pair>) {
    |ms| == |es| && forall i | 0 <= i < |es| :: From(es[i], ms[i])
  }

  /** Pairs built in one iteration order, put in the order of another. */
  lemma {:induction false} Realign(gs: seq<Entry>, es: seq<Entry>, ms: seq<Pair>) returns (ns: seq<Pair>)
    requires multiset(gs) == multiset(es) && AllFrom(es, ms)
    ensures AllFrom(gs, ns) && multiset(ns) == multiset(ms)
  {
    hide From;
    if gs == [] {
      assert |multiset(es)| == 0;
      assert es == [] && ms == [];
      ns := [];
    } else {
      var k := HeadIn(gs, es);
      assert AllFrom(Without(es, k), Without(ms, k));
      var rest := Realign(gs[1..], Without(es, k), Without(ms, k));
      ns := [ms[k]] + rest;
      WithoutCounts(ms, k);
      HeadCounts(ns);
      assert ns[1..] == rest;
    }
  }

  // ---- The text ----

  lemma SortedIsInOrder(ps: seq<Pair>)
    requires ScalarKeys(ps) && Sorted(ps)
    ensures InOrder(Keyed(ps))
  {
    hide ShownLess;
  }

  lemma BuiltIsFrom(v: Value, ms: seq<Pair>)
    requires v.Map?
    ensures BuiltAs(v, ms) <==> AllFrom(v.entries, ms)
  {
    hide LeafNode, Builds;
    if AllFrom(v.entries, ms) {
      assert forall i | 0 <= i < |ms| :: From(v.entries[i], ms[i]);
    }
  }

  /** Same content, same text: any iteration orders of the maps, at any depth, and any sorts. */
  lemma {:induction false} SameContentSameText(v: Value, w: Value, m: Node, n: Node)
    requires Compositional() && Same(v, w) && Builds(v, m) && Builds(w, n)
    ensures Marshal(m) == Marshal(n)
    decreases w
  {
    hide LeafNode, Sorted;
    match w
    case Leaf(_) =>
    case List(items) =>
      forall i | 0 <= i < |items|
        ensures Marshal(m.items[i]) == Marshal(n.items[i])
      {
        SameContentSameText(v.items[i], items[i], m.items[i], n.items[i]);
      }
      assert SameTexts(m.items, n.items);
    case Map(es) =>
      var gs: seq<Entry> :| multiset(gs) == multiset(v.entries) && SameEntries(gs, w);
      var ms: seq<Pair> :| BuiltAs(v, ms) && multiset(m.pairs) == multiset(ms);
      var ns: seq<Pair> :| BuiltAs(w, ns) && multiset(n.pairs) == multiset(ns);
      BuiltIsFrom(v, ms);
      BuiltIsFrom(w, ns);
      var ls := Realign(gs, v.entries, ms);
      forall i | 0 <= i < |gs|
        ensures Show(ls[i]) == Show(ns[i])
      {
        assert From(gs[i], ls[i]) && From(es[i], ns[i]);
        SameContentSameText(gs[i].value, es[i].value, ls[i].value, ns[i].value);
      }
      assert Keyed(ls) == Keyed(ns);
      SameMapping(m.pairs, ls, ns, n.pairs);
  }

  lemma SameMapping(ps: seq<Pair>, ls: seq<Pair>, ns: seq<Pair>, qs: seq<Pair>)
    requires Compositional() && ScalarKeys(ps) && Sorted(ps) && ScalarKeys(qs) && Sorted(qs)
    requires multiset(ps) == multiset(ls) && Keyed(ls) == Keyed(ns) && multiset(ns) == multiset(qs)
    ensures Marshal(MappingNode(ps)) == Marshal(MappingNode(qs))
  {
    hide Sorted, InOrder, Show;
    KeyedCounts(ps, ls);
    KeyedCounts(ns, qs);
    SortedIsInOrder(ps);
    SortedIsInOrder(qs);
    SortIsUnique(Keyed(ps), Keyed(qs));
  }

  // ---- The builder ----

  lemma {:induction false} BeforeChains(a: string, b: string, c: string, i: nat)
    requires Before(a, b, i) && Before(b, c, i)
    ensures Before(a, c, i)
    decreases |a| - i
  {
    if i < |a| && a[i] == b[i] && b[i] == c[i] {
      BeforeChains(a, b, c, i + 1);
    }
  }

  lemma {:induction false} NotBoth(a: string, b: string, i: nat)
    ensures !(Before(a, b, i) && Before(b, a, i))
    decreases |a| - i
  {
    if i < |a| && i < |b| && a[i] == b[i] {
      NotBoth(a, b, i + 1);
    }
  }

  lemma LessChains(a: Shown, b: Shown, c: Shown)
    requires a.key.ScalarNode? && b.key.ScalarNode? && c.key.ScalarNode? && ShownLess(a, b)
    ensures ShownLess(b, c) ==> ShownLess(a, c)
    ensures !ShownLess(b, a)
  {
    hide Before;
    NotBoth(a.key.tag, b.key.tag, 0);
    NotBoth(a.key.text, b.key.text, 0);
    NotBoth(a.text, b.text, 0);
    NotBoth(b.key.tag, c.key.tag, 0);
    NotBoth(b.key.text, c.key.text, 0);
    if ShownLess(b, c) {
      if Less(a.key.tag, b.key.tag) && Less(b.key.tag, c.key.tag) {
        BeforeChains(a.key.tag, b.key.tag, c.key.tag, 0);
      }
      if Less(a.key.text, b.key.text) && Less(b.key.text, c.key.text) {
        BeforeChains(a.key.text, b.key.text, c.key.text, 0);
      }
      if Less(a.text, b.text) && Less(b.text, c.text) {
        BeforeChains(a.text, b.text, c.text, 0);
      }
    }
  }

  /** The first entry greater than the new one: the new one goes in front of it. */
  lemma InsertedIsSorted(ps: seq<Pair>, p: Pair, k: nat, r: seq<Pair>)
    requires ScalarKeys(ps) && Sorted(ps) && p.key.ScalarNode? && k <= |ps| && r == ps[..k] + [p] + ps[k..]
    requires forall i | 0 <= i < k :: !ShownLess(Show(p), Show(ps[i]))
    requires k < |ps| ==> ShownLess(Show(p), Show(ps[k]))
    ensures ScalarKeys(r) && Sorted(r)
  {
    hide ShownLess;
    forall i | 0 <= i < |r|
      ensures r[i] == if i < k then ps[i] else if i == k then p else ps[i - 1]
    {
    }
    forall i | k <= i < |ps|
      ensures !ShownLess(Show(ps[i]), Show(p))
    {
      LessChains(Show(p), Show(ps[k]), Show(p));
      if ShownLess(Show(ps[i]), Show(p)) {
        LessChains(Show(ps[i]), Show(p), Show(ps[k]));
      }
    }
  }

  /** The next entry goes behind the last one that is not greater: one way a sort may place equal entries. */
  method Insert(ps: seq<Pair>, p: Pair) returns (r: seq<Pair>)
    requires ScalarKeys(ps) && Sorted(ps) && p.key.ScalarNode?
    ensures multiset(r) == multiset(ps) + multiset{p} && ScalarKeys(r) && Sorted(r)
  {
    var k := 0;
    while k < |ps| && !ShownLess(Show(p), Show(ps[k]))
      invariant k <= |ps| && forall i | 0 <= i < k :: !ShownLess(Show(p), Show(ps[i]))
    {
      k := k + 1;
    }
    r := ps[..k] + [p] + ps[k..];
    assert ps == ps[..k] + ps[k..];
    InsertedIsSorted(ps, p, k, r);
  }

  method Build(v: Value) returns (n: Node)
    ensures Builds(v, n)
    decreases v, 1
  {
    match v
    case Leaf(x) => n := LeafNode(x);
    case List(items) =>
      var nodes: seq<Node> := [];
      for i := 0 to |items|
        invariant |nodes| == i && forall k | 0 <= k < i :: Builds(items[k], nodes[k])
      {
        var item := Build(items[i]);
        nodes := nodes + [item];
      }
      n := SequenceNode(nodes);
    case Map(es) =>
      n := BuildMapping(v);
  }

  /** `sortedMapping`. */
  method BuildMapping(v: Value) returns (n: Node)
    requires v.Map?
    ensures Builds(v, n)
    decreases v, 0
  {
    var es := v.entries;
    var pairs: seq<Pair> := [];
    ghost var ms: seq<Pair> := [];
    for i := 0 to |es|
      invariant |ms| == i
      invariant forall k | 0 <= k < i :: ms[k].key == LeafNode(es[k].key) && Builds(es[k].value, ms[k].value)
      invariant multiset(pairs) == multiset(ms) && ScalarKeys(pairs) && Sorted(pairs)
    {
      var value := Build(es[i].value);
      var pair := Pair(LeafNode(es[i].key), value);
      pairs := Insert(pairs, pair);
      ms := ms + [pair];
    }
    assert BuiltAs(v, ms);
    n := MappingNode(pairs);
  }
}

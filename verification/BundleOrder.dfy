/**
 * The dependency ordering of the JavaScript bundler (js/gulp/bundle.js):
 * `Depends.get`, `Depends.expand`, `Depends.comparator` and `Depends.sort`.
 *
 * A graph is a snapshot of the bundler's file list.  Its meaning is given by walks, independently of
 * the code: a path is reachable from a list of paths when some walk starts in the list and follows
 * recorded dependencies.  `Expand` saturates every list in place to exactly the reachable paths, and
 * `Sort`, which swaps `objects[i]` and `objects[j]` whenever the first is required by the second, for
 * every i and every j, is shown to leave no file before one that it strictly depends on.
 */
module BundleOrder {
  import opened Common

  datatype Node = Node(path: string, depends: seq<string>)

  type Graph = seq<Node>

  /** The dependencies recorded for a path: those of the first file with that path, or none. */
  function Lookup(g: Graph, path: string): (r: seq<string>)
    ensures forall p :: p in r ==> exists i :: 0 <= i < |g| && p in g[i].depends
  {
    if g == [] then []
    else if g[0].path == path then g[0].depends
    else
      var r := Lookup(g[1..], path);
      assert forall p :: p in r ==> exists i :: 0 <= i < |g| && p in g[i].depends by {
        forall p | p in r ensures exists i :: 0 <= i < |g| && p in g[i].depends {
          var i :| 0 <= i < |g[1..]| && p in g[1..][i].depends;
          assert g[i + 1] == g[1..][i];
        }
      }
      r
  }

  lemma {:induction false} LookupFirst(g: Graph, path: string, i: nat)
    requires i < |g| && g[i].path == path
    requires forall k :: 0 <= k < i ==> g[k].path != path
    ensures Lookup(g, path) == g[i].depends
  {
    if i > 0 {
      LookupFirst(g[1..], path, i - 1);
    }
  }

  lemma {:induction false} LookupNone(g: Graph, path: string)
    requires forall k :: 0 <= k < |g| ==> g[k].path != path
    ensures Lookup(g, path) == []
  {
    if g != [] {
      LookupNone(g[1..], path);
    }
  }

  // ---------------------------------------------------------------- reachability

  ghost predicate Walk(g: Graph, xs: seq<string>) {
    && xs != []
    && forall i :: 0 < i < |xs| ==> xs[i] in Lookup(g, xs[i - 1])
  }

  ghost predicate WalkFrom(g: Graph, from: seq<string>, xs: seq<string>, to: string) {
    Walk(g, xs) && xs[0] in from && xs[|xs| - 1] == to
  }

  /** `to` is in `from` or is reached from a member of `from` by following dependencies. */
  ghost predicate Reachable(g: Graph, from: seq<string>, to: string) {
    exists xs :: WalkFrom(g, from, xs, to)
  }

  /** The file at path `a` depends on path `b`, directly or not. */
  ghost predicate Reaches(g: Graph, a: string, b: string) {
    Reachable(g, Lookup(g, a), b)
  }

  ghost predicate StrictlyBelow(g: Graph, a: string, b: string) {
    Reaches(g, b, a) && !Reaches(g, a, b)
  }

  ghost predicate Acyclic(g: Graph) {
    forall p :: !Reaches(g, p, p)
  }

  ghost predicate UniquePaths(g: Graph) {
    forall i, j :: 0 <= i < j < |g| ==> g[i].path != g[j].path
  }

  lemma ReachableStart(g: Graph, from: seq<string>, p: string)
    requires p in from
    ensures Reachable(g, from, p)
  {
    assert WalkFrom(g, from, [p], p);
  }

  lemma ReachableTrans(g: Graph, from: seq<string>, p: string, q: string)
    requires Reachable(g, from, p) && Reaches(g, p, q)
    ensures Reachable(g, from, q)
  {
    var xs :| WalkFrom(g, from, xs, p);
    var ys :| WalkFrom(g, Lookup(g, p), ys, q);
    var zs := xs + ys;
    forall i | 0 < i < |zs| ensures zs[i] in Lookup(g, zs[i - 1]) {
      if i > |xs| {
        assert zs[i] == ys[i - |xs|] && zs[i - 1] == ys[i - |xs| - 1];
      }
    }
    assert WalkFrom(g, from, zs, q);
  }

  ghost predicate ClosedUnder(g: Graph, s: seq<string>) {
    forall p, q :: p in s && q in Lookup(g, p) ==> q in s
  }

  /** A list that contains `from` and is closed under dependencies contains all that is reachable. */
  lemma ClosedContainsReachable(g: Graph, from: seq<string>, s: seq<string>, p: string)
    requires forall q :: q in from ==> q in s
    requires ClosedUnder(g, s) && Reachable(g, from, p)
    ensures p in s
  {
    var xs :| WalkFrom(g, from, xs, p);
    var k := 0;
    while k < |xs| - 1
      invariant 0 <= k < |xs| && xs[k] in s
    {
      k := k + 1;
    }
  }

  /** Every path that occurs in some dependency list. */
  ghost function Mentioned(g: Graph): set<string> {
    set i, p | 0 <= i < |g| && p in g[i].depends :: p
  }

  /** How many mentioned paths a list does not hold. */
  ghost function Missing(g: Graph, list: seq<string>): nat {
    |Mentioned(g) - (set p | p in list)|
  }

  lemma ReachableIsMentioned(g: Graph, i: nat, p: string)
    requires i < |g| && Reachable(g, g[i].depends, p)
    ensures p in Mentioned(g)
  {
    var xs :| WalkFrom(g, g[i].depends, xs, p);
    if |xs| > 1 {
      assert p in Lookup(g, xs[|xs| - 2]);
    }
  }

  // ---------------------------------------------------------------- saturation

  /** `h` is `g` with some lists extended: each holds at least its original dependencies and only
      paths reachable from them. */
  ghost predicate Saturating(g: Graph, h: Graph) {
    && |g| == |h|
    && forall i :: 0 <= i < |g| ==> g[i].path == h[i].path && SaturatingAt(g, g[i].depends, h[i].depends)
  }

  ghost predicate SaturatingAt(g: Graph, from: seq<string>, s: seq<string>) {
    && (forall p :: p in from ==> p in s)
    && forall p :: p in s ==> Reachable(g, from, p)
  }

  /** The lists of `h` hold exactly the paths reachable in `g`. */
  ghost predicate Expanded(g: Graph, h: Graph) {
    && |g| == |h|
    && forall i :: 0 <= i < |g| ==> g[i].path == h[i].path && ExpandedAt(g, g[i].depends, h[i].depends)
  }

  ghost predicate ExpandedAt(g: Graph, from: seq<string>, s: seq<string>) {
    forall p :: p in s <==> Reachable(g, from, p)
  }

  /** `after` is `before` followed by paths that are new and distinct. */
  ghost predicate Grows(before: seq<string>, after: seq<string>) {
    && before <= after
    && forall i, j :: 0 <= i < j < |after| && |before| <= j ==> after[i] != after[j]
  }

  lemma GrowsTrans(a: seq<string>, b: seq<string>, c: seq<string>)
    requires Grows(a, b) && Grows(b, c)
    ensures Grows(a, c)
  {
    forall i, j | 0 <= i < j < |c| && |a| <= j ensures c[i] != c[j] {
      if j < |b| {
        assert c[i] == b[i] && c[j] == b[j];
      }
    }
  }

  ghost predicate NoDuplicates(s: seq<string>) {
    forall i, j :: 0 <= i < j < |s| ==> s[i] != s[j]
  }

  /** A list without duplicates grows into one without duplicates. */
  lemma GrowsNoDuplicates(before: seq<string>, after: seq<string>)
    requires Grows(before, after) && NoDuplicates(before)
    ensures NoDuplicates(after)
  {
    forall i, j | 0 <= i < j < |after| ensures after[i] != after[j] {
      if j < |before| {
        assert after[i] == before[i] && after[j] == before[j];
      }
    }
  }

  lemma SaturatingStart(g: Graph)
    ensures Saturating(g, g)
  {
    forall i, p | 0 <= i < |g| && p in g[i].depends ensures Reachable(g, g[i].depends, p) {
      ReachableStart(g, g[i].depends, p);
    }
  }

  /** Looking a path up in a partly saturated list finds the original dependencies and more, all of
      them reachable. */
  lemma SaturatingLookup(g: Graph, h: Graph, path: string)
    requires Saturating(g, h)
    ensures forall q :: q in Lookup(g, path) ==> q in Lookup(h, path)
    ensures forall q :: q in Lookup(h, path) ==> Reaches(g, path, q)
  {
    if k :| 0 <= k < |g| && g[k].path == path {
      var i := k;
      while exists m :: 0 <= m < i && g[m].path == path
        invariant 0 <= i < |g| && g[i].path == path
        decreases i
      {
        var m :| 0 <= m < i && g[m].path == path;
        i := m;
      }
      LookupFirst(g, path, i);
      LookupFirst(h, path, i);
    } else {
      LookupNone(g, path);
      LookupNone(h, path);
    }
  }

  lemma SaturatingReachable(g: Graph, h: Graph, from: seq<string>, p: string, q: string)
    requires Saturating(g, h) && Reachable(g, from, p) && q in Lookup(h, p)
    ensures Reachable(g, from, q)
  {
    SaturatingLookup(g, h, p);
    ReachableTrans(g, from, p, q);
  }

  /** A list that one more round does not lengthen is closed, so it holds all that is reachable. */
  lemma ClosedIsExpanded(g: Graph, h: Graph, from: seq<string>, s: seq<string>)
    requires Saturating(g, h) && SaturatingAt(g, from, s)
    requires forall p, q :: p in s && q in Lookup(h, p) ==> q in s
    ensures ExpandedAt(g, from, s)
  {
    forall p, q | p in s && q in Lookup(g, p) ensures q in s {
      SaturatingLookup(g, h, p);
    }
    forall p | Reachable(g, from, p) ensures p in s {
      ClosedContainsReachable(g, from, s, p);
    }
  }

  /** One round of `expand`: the list, followed by the dependencies of its members. */
  ghost predicate Round(h: Graph, list: seq<string>, r: seq<string>) {
    && Grows(list, r)
    && (forall q :: q in r ==> q in list || exists p :: p in list && q in Lookup(h, p))
    && forall p, q :: p in list && q in Lookup(h, p) ==> q in r
  }

  lemma RoundKeepsSaturating(g: Graph, h: Graph, i: nat, r: seq<string>)
    requires Saturating(g, h) && i < |h| && Round(h, h[i].depends, r)
    ensures SaturatingAt(g, g[i].depends, r)
    ensures Saturating(g, h[i := Node(h[i].path, r)])
  {
    var list, from := h[i].depends, g[i].depends;
    forall q | q in r ensures Reachable(g, from, q) {
      if q !in list {
        var p :| p in list && q in Lookup(h, p);
        SaturatingReachable(g, h, from, p, q);
      }
    }
  }

  /** The termination measure of `expand`: a longer list misses fewer of the mentioned paths. */
  lemma FewerMissing(g: Graph, i: nat, before: seq<string>, after: seq<string>)
    requires i < |g| && SaturatingAt(g, g[i].depends, after)
    requires Grows(before, after) && |before| < |after|
    ensures Missing(g, after) < Missing(g, before)
  {
    var x := after[|before|];
    assert x in after && x !in before;
    ReachableIsMentioned(g, i, x);
    var a, b := Mentioned(g) - (set p | p in after), Mentioned(g) - (set p | p in before);
    assert a <= b - {x};
    Subset(a, b - {x});
  }

  /** What one round achieves: the list is complete, or it grew and is closer to complete. */
  ghost predicate Outcome(g: Graph, h: Graph, i: nat, r: seq<string>)
    requires i < |h| == |g|
  {
    && Grows(h[i].depends, r)
    && if |r| == |h[i].depends| then
         ExpandedAt(g, g[i].depends, h[i].depends)
       else
         Saturating(g, h[i := Node(h[i].path, r)]) && Missing(g, r) < Missing(g, h[i].depends)
  }

  lemma RoundOutcome(g: Graph, h: Graph, i: nat, r: seq<string>)
    requires Saturating(g, h) && i < |h| && Round(h, h[i].depends, r)
    ensures Outcome(g, h, i, r)
  {
    if |r| == |h[i].depends| {
      assert r == h[i].depends;
      ClosedIsExpanded(g, h, g[i].depends, r);
    } else {
      RoundKeepsSaturating(g, h, i, r);
      FewerMissing(g, i, h[i].depends, r);
    }
  }

  lemma {:induction false} Subset<T>(a: set<T>, b: set<T>)
    requires a <= b
    ensures |a| <= |b|
  {
    if x :| x in a {
      Subset(a - {x}, b - {x});
    }
  }

  // ---------------------------------------------------------------- the sort

  /** `comparator(a, b) < 0`: b requires a. */
  ghost predicate Below(a: Node, b: Node) {
    a.path in b.depends
  }

  ghost predicate Strict(a: Node, b: Node) {
    Below(a, b) && !Below(b, a)
  }

  ghost predicate Transitive(g: Graph) {
    forall a, b, c :: a in g && b in g && c in g && Below(a, b) && Below(b, c) ==> Below(a, c)
  }

  /** No file among the first n comes after one that strictly requires it. */
  ghost predicate Ordered(s: Graph, n: nat)
    requires n <= |s|
  {
    forall p, q :: 0 <= p < q < n ==> !Strict(s[q], s[p])
  }

  /** The file in hand, at i, is not strictly below any of the first n. */
  ghost predicate NotBelowFirst(s: Graph, i: nat, n: nat)
    requires n <= |s| && i < |s|
  {
    forall p :: 0 <= p < n ==> !Strict(s[i], s[p])
  }

  /** The state of `sort` in pass i, before the inner loop visits j. */
  ghost predicate InPass(s: Graph, i: nat, j: nat) {
    && i < |s|
    && Transitive(s)
    && Ordered(s, i)
    && NotBelowFirst(s, i, if j < i then j else i)
  }

  ghost function Swapped<T>(s: seq<T>, i: nat, j: nat): seq<T>
    requires i < |s| && j < |s|
  {
    s[i := s[j]][j := s[i]]
  }

  /** What one iteration of the inner loop keeps when it swaps: for j < i the file in hand takes place j
      and the file that was there is in hand; for j > i the file in hand is replaced by one above it.
      Only transitivity is used, so cycles are harmless. */
  lemma SwapKeepsOrder(s: Graph, i: nat, j: nat)
    requires InPass(s, i, j) && j < |s| && i != j
    requires Below(s[i], s[j])
    ensures InPass(Swapped(s, i, j), i, j + 1)
  {
    var t := Swapped(s, i, j);
    forall x | x in t ensures x in s {
      var k :| 0 <= k < |t| && t[k] == x;
      assert x == s[if k == i then j else if k == j then i else k];
    }
    var x, y := s[i], s[j];
    if j < i {
      forall p, q | 0 <= p < q < i ensures !Strict(t[q], t[p]) {
        if p == j && Below(s[q], x) {
          assert Below(s[q], y);
        }
      }
    } else {
      forall p | 0 <= p < i ensures !Strict(y, s[p]) {
        if Below(y, s[p]) {
          assert Below(x, s[p]);
        }
      }
    }
  }

  /** Saturated lists make "requires" transitive between files with distinct paths. */
  lemma ExpandedIsTransitive(g: Graph, h: Graph)
    requires Expanded(g, h) && UniquePaths(g)
    ensures Transitive(h)
  {
    forall a, b, c | a in h && b in h && c in h && Below(a, b) && Below(b, c) ensures Below(a, c) {
      var j :| 0 <= j < |h| && h[j] == b;
      var k :| 0 <= k < |h| && h[k] == c;
      LookupFirst(g, b.path, j);
      ReachableTrans(g, g[k].depends, b.path, a.path);
    }
  }

  /** In the order that `sort` leaves, read in the original graph: a file strictly below another comes
      first, and without cycles every dependency comes first. */
  ghost predicate DependencyOrder(g: Graph, paths: seq<string>) {
    && (forall p, q :: 0 <= p < q < |paths| ==> !StrictlyBelow(g, paths[q], paths[p]))
    && (Acyclic(g) ==>
          forall p, q :: 0 <= p < |paths| && 0 <= q < |paths| && Reaches(g, paths[q], paths[p]) ==> p < q)
  }

  ghost function Paths(s: Graph): seq<string> {
    seq(|s|, i requires 0 <= i < |s| => s[i].path)
  }

  lemma OrderedIsDependencyOrder(g: Graph, h: Graph, s: Graph)
    requires Expanded(g, h) && UniquePaths(g)
    requires (forall x :: x in s ==> x in h) && Ordered(s, |s|)
    ensures DependencyOrder(g, Paths(s))
  {
    forall p, q | 0 <= p < |s| && 0 <= q < |s| ensures Below(s[p], s[q]) <==> Reaches(g, s[q].path, s[p].path) {
      assert s[q] in s;
      var k :| 0 <= k < |h| && h[k] == s[q];
      LookupFirst(g, s[q].path, k);
    }
    if Acyclic(g) {
      var ps := Paths(s);
      forall p, q | 0 <= p < |ps| && 0 <= q < |ps| && Reaches(g, ps[q], ps[p]) ensures p < q {
        if q < p {
          assert !Strict(s[p], s[q]);
          assert Reaches(g, ps[p], ps[q]);
          ReachableTrans(g, Lookup(g, ps[q]), ps[p], ps[q]);
        }
      }
    }
  }

  // ---------------------------------------------------------------- the bundler's file list

  /** A file and the paths it requires: the objects that bundle.js pushes on `d.depends`. */
  class Unit {
    const path: string
    var depends: seq<string>

    constructor (path: string, depends: seq<string>)
      ensures this.path == path && this.depends == depends
    {
      this.path := path;
      this.depends := depends;
    }

    ghost function Value(): Node
      reads this
    {
      Node(path, depends)
    }
  }

  ghost function Snapshot(units: seq<Unit>): (g: Graph)
    reads units
    ensures |g| == |units|
    ensures forall i :: 0 <= i < |g| ==> g[i] == units[i].Value()
  {
    seq(|units|, i requires 0 <= i < |units| reads units => units[i].Value())
  }

  lemma SnapshotMembers(a: seq<Unit>, b: seq<Unit>)
    requires multiset(a) == multiset(b)
    ensures forall x :: x in Snapshot(a) ==> x in Snapshot(b)
  {
    forall x | x in Snapshot(a) ensures x in Snapshot(b) {
      var k :| 0 <= k < |a| && Snapshot(a)[k] == x;
      assert a[k] in multiset(b);
      var m :| 0 <= m < |b| && b[m] == a[k];
      assert Snapshot(b)[m] == x;
    }
  }

  lemma SwapUnits(s: seq<Unit>, i: nat, j: nat)
    requires j < |s| && i != j && InPass(Snapshot(s), i, j)
    requires s[i].path in s[j].depends
    ensures InPass(Snapshot(Swapped(s, i, j)), i, j + 1)
    ensures multiset(Swapped(s, i, j)) == multiset(s)
  {
    assert Snapshot(Swapped(s, i, j)) == Swapped(Snapshot(s), i, j);
    SwapKeepsOrder(Snapshot(s), i, j);
  }

  lemma SortedInGraph(g: Graph, units: seq<Unit>, r: seq<Unit>)
    requires Expanded(g, Snapshot(units)) && UniquePaths(g)
    requires multiset(r) == multiset(units) && Ordered(Snapshot(r), |r|)
    ensures DependencyOrder(g, Paths(Snapshot(r)))
  {
    SnapshotMembers(r, units);
    OrderedIsDependencyOrder(g, Snapshot(units), Snapshot(r));
  }

  class Depends {
    var depends: seq<Unit>

    constructor ()
      ensures depends == []
    {
      depends := [];
    }

    method Get(file: string) returns (r: seq<string>)
      ensures r == Lookup(Snapshot(depends), file)
    {
      for i := 0 to |depends|
        invariant forall k :: 0 <= k < i ==> depends[k].path != file
      {
        if depends[i].path == file {
          LookupFirst(Snapshot(depends), file, i);
          return depends[i].depends;
        }
      }
      LookupNone(Snapshot(depends), file);
      return [];
    }

    /** The inner loop of `expand(o)`: appends the members of `ds` that the list does not hold yet. */
    static method AddMissing(list: seq<string>, ds: seq<string>) returns (r: seq<string>)
      ensures Grows(list, r)
      ensures forall p :: p in r <==> p in list || p in ds
    {
      r := list;
      for k := 0 to |ds|
        invariant Grows(list, r)
        invariant forall p :: p in r <==> p in list || p in ds[..k]
      {
        if ds[k] !in r {
          r := r + [ds[k]];
        }
      }
    }

    /** The outer loop of `expand(o)`: the list followed by the dependencies of its members. */
    method Collect(list: seq<string>) returns (newDepends: seq<string>)
      ensures Round(Snapshot(depends), list, newDepends)
    {
      ghost var h := Snapshot(depends);
      newDepends := list;
      for j := 0 to |list|
        invariant Grows(list, newDepends)
        invariant forall q :: q in newDepends ==> q in list || exists p :: p in list && q in Lookup(h, p)
        invariant forall m, q :: 0 <= m < j && q in Lookup(h, list[m]) ==> q in newDepends
      {
        var ds := Get(list[j]);
        newDepends := AddMissing(newDepends, ds);
      }
    }

    method OneRound(i: nat, ghost g: Graph) returns (newDepends: seq<string>)
      requires i < |depends| && Saturating(g, Snapshot(depends))
      ensures Outcome(g, Snapshot(depends), i, newDepends)
    {
      newDepends := Collect(depends[i].depends);
      RoundOutcome(g, Snapshot(depends), i, newDepends);
    }

    method Replace(i: nat, newDepends: seq<string>)
      requires i < |depends| && Distinct(depends)
      modifies depends[i]
      ensures depends[i].depends == newDepends
      ensures Snapshot(depends) == old(Snapshot(depends))[i := Node(depends[i].path, newDepends)]
    {
      depends[i].depends := newDepends;
    }

    /** `expand(o)`: saturates one list, recursing until it stops growing.  `g` is the graph before any
        list was expanded; other lists may already have been expanded, in any order. */
    method ExpandOne(i: nat, ghost g: Graph)
      requires i < |depends| && Distinct(depends) && Saturating(g, Snapshot(depends))
      modifies depends[i]
      ensures Saturating(g, Snapshot(depends))
      ensures ExpandedAt(g, g[i].depends, depends[i].depends)
      ensures Grows(old(depends[i].depends), depends[i].depends)
      decreases Missing(g, depends[i].depends), 0
    {
      var newDepends := OneRound(i, g);
      if |depends[i].depends| != |newDepends| {
        ExpandAgain(i, newDepends, g);
      }
    }

    /** The rest of `expand(o)` once the list has grown: store it and start over. */
    method ExpandAgain(i: nat, newDepends: seq<string>, ghost g: Graph)
      requires i < |depends| && Distinct(depends) && |g| == |depends|
      requires Saturating(g, Snapshot(depends)[i := Node(depends[i].path, newDepends)])
      requires Grows(depends[i].depends, newDepends)
      modifies depends[i]
      ensures Saturating(g, Snapshot(depends))
      ensures ExpandedAt(g, g[i].depends, depends[i].depends)
      ensures Grows(old(depends[i].depends), depends[i].depends)
      decreases Missing(g, newDepends), 1
    {
      ghost var list := depends[i].depends;
      Replace(i, newDepends);
      ExpandOne(i, g);
      GrowsTrans(list, newDepends, depends[i].depends);
    }

    /** `expand()`: every list becomes exactly the set of paths reachable in the original graph, the
        original list first and each added path once. */
    method Expand()
      requires Distinct(depends)
      modifies set o | o in depends
      ensures depends == old(depends)
      ensures Expanded(old(Snapshot(depends)), Snapshot(depends))
      ensures forall i :: 0 <= i < |depends| ==> Grows(old(depends[i].depends), depends[i].depends)
    {
      ghost var g := Snapshot(depends);
      SaturatingStart(g);
      for i := 0 to |depends|
        invariant depends == old(depends)
        invariant Saturating(g, Snapshot(depends))
        invariant forall k :: 0 <= k < i ==> ExpandedAt(g, g[k].depends, depends[k].depends)
        invariant forall k :: 0 <= k < |depends| ==> Grows(g[k].depends, depends[k].depends)
      {
        ExpandOne(i, g);
        assert forall k :: 0 <= k < |depends| && k != i ==> depends[k] != depends[i];
      }
    }

    /** `comparator(a, b)`. */
    static method Comparator(a: Unit, b: Unit) returns (result: int)
      ensures result < 0 <==> a.path in b.depends
      ensures result > 0 <==> b.path in a.depends && a.path !in b.depends
    {
      result := 0;
      for i := 0 to |b.depends|
        invariant result == if a.path in b.depends[..i] then -1 else 0
      {
        if b.depends[i] == a.path {
          result := -1;
        }
      }
      for i := 0 to |a.depends|
        invariant result == if a.path in b.depends then -1 else if b.path in a.depends[..i] then 1 else 0
      {
        if a.depends[i] == b.path {
          if result == -1 {
            return;
          }
          result := 1;
        }
      }
    }

    static method Swap(objects: array<Unit>, i: nat, j: nat)
      requires i < objects.Length && j < objects.Length && i != j
      modifies objects
      ensures objects[..] == Swapped(old(objects[..]), i, j)
      ensures Snapshot(objects[..]) == old(Snapshot(Swapped(objects[..], i, j)))
    {
      ghost var t := Swapped(objects[..], i, j);
      var tmp := objects[j];
      objects[j] := objects[i];
      objects[i] := tmp;
      assert objects[..] == t;
    }

    static method Exchange(objects: array<Unit>, i: nat, j: nat)
      requires i < objects.Length && j < objects.Length && i != j
      requires InPass(Snapshot(objects[..]), i, j) && objects[i].path in objects[j].depends
      modifies objects
      ensures InPass(Snapshot(objects[..]), i, j + 1)
      ensures multiset(objects[..]) == multiset(old(objects[..]))
    {
      SwapUnits(objects[..], i, j);
      Swap(objects, i, j);
    }

    static method CompareAndSwap(objects: array<Unit>, i: nat, j: nat)
      requires i < objects.Length && j < objects.Length && i != j
      requires InPass(Snapshot(objects[..]), i, j)
      modifies objects
      ensures InPass(Snapshot(objects[..]), i, j + 1)
      ensures multiset(objects[..]) == multiset(old(objects[..]))
    {
      var v := Comparator(objects[i], objects[j]);
      if v < 0 {
        Exchange(objects, i, j);
      }
    }

    /** The inner loop of `sort`. */
    static method Pass(objects: array<Unit>, i: nat)
      requires i < objects.Length && InPass(Snapshot(objects[..]), i, 0)
      modifies objects
      ensures InPass(Snapshot(objects[..]), i, objects.Length)
      ensures multiset(objects[..]) == multiset(old(objects[..]))
    {
      for j := 0 to objects.Length
        invariant InPass(Snapshot(objects[..]), i, j)
        invariant multiset(objects[..]) == multiset(old(objects[..]))
      {
        if j != i {
          CompareAndSwap(objects, i, j);
        }
      }
    }

    /** The outer loop of `sort`. */
    static method SortInPlace(objects: array<Unit>)
      requires Transitive(Snapshot(objects[..]))
      modifies objects
      ensures Ordered(Snapshot(objects[..]), objects.Length)
      ensures multiset(objects[..]) == multiset(old(objects[..]))
    {
      for i := 0 to objects.Length
        invariant multiset(objects[..]) == multiset(old(objects[..]))
        invariant Transitive(Snapshot(objects[..])) && Ordered(Snapshot(objects[..]), i)
      {
        Pass(objects, i);
      }
    }

    /** `sort()`. */
    method Sort() returns (r: seq<Unit>)
      requires Transitive(Snapshot(depends))
      ensures multiset(r) == multiset(depends)
      ensures Ordered(Snapshot(r), |r|)
    {
      var objects := new Unit[|depends|](i requires 0 <= i < |depends| reads this => depends[i]);
      assert objects[..] == depends;
      SortInPlace(objects);
      r := objects[..];
    }

    /** `d.expand().sort()`. */
    method ExpandAndSort() returns (r: seq<Unit>)
      requires Distinct(depends) && UniquePaths(Snapshot(depends))
      modifies set o | o in depends
      ensures multiset(r) == multiset(old(depends))
      ensures DependencyOrder(old(Snapshot(depends)), Paths(Snapshot(r)))
    {
      ghost var g := Snapshot(depends);
      Expand();
      ExpandedIsTransitive(g, Snapshot(depends));
      r := Sort();
      SortedInGraph(g, depends, r);
    }

    /** Line 291: `d.depends = d.expand().sort()`. */
    method Order()
      requires Distinct(depends) && UniquePaths(Snapshot(depends))
      modifies this, set o | o in depends
      ensures multiset(depends) == old(multiset(depends))
      ensures DependencyOrder(old(Snapshot(depends)), Paths(Snapshot(depends)))
    {
      var r := ExpandAndSort();
      depends := r;
    }
  }
}

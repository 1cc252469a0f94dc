/** Dependency order of modules: Kahn's algorithm with a sorted ready queue. A module is its
    name together with the list of names it depends on, duplicates included. */
module TopoSort {
  import opened Wrappers
  import opened Names

  type Deps = map<string, seq<string>>

  datatype SortError = MissingDependency(name: string, dep: string) | DependencyCycle

  // ---------- what an order is ----------

  function Elems(s: seq<string>): set<string> {
    set x | x in s
  }

  predicate NoDup(s: seq<string>) {
    forall i, j :: 0 <= i < j < |s| ==> s[i] != s[j]
  }

  predicate Present(mods: Deps) {
    forall n :: n in mods ==> Listed(mods, n)
  }

  predicate Listed(mods: Deps, n: string) {
    n in mods ==> forall d :: d in mods[n] ==> d in mods
  }

  /** Every module once, each after all of its dependencies. */
  predicate IsOrder(mods: Deps, out: seq<string>) {
    && NoDup(out) && Elems(out) == mods.Keys
    && (forall i, d :: 0 <= i < |out| && d in mods[out[i]] ==> d in out[..i])
  }

  /** A walk along dependencies that comes back to where it started. */
  predicate IsCycle(mods: Deps, p: seq<string>) {
    && |p| > 1 && p[0] == p[|p| - 1]
    && (forall i :: 0 <= i < |p| - 1 ==> p[i] in mods && p[i + 1] in mods[p[i]])
  }

  ghost predicate Cyclic(mods: Deps) {
    exists p :: IsCycle(mods, p)
  }

  predicate Ready(mods: Deps, done: set<string>, n: string) {
    n in mods && n !in done && forall d :: d in mods[n] ==> d in done
  }

  /** At every position stands the least module that is ready there. */
  ghost predicate Greedy(mods: Deps, out: seq<string>) {
    forall i :: 0 <= i < |out| ==>
      Ready(mods, Elems(out[..i]), out[i])
      && forall n :: Ready(mods, Elems(out[..i]), n) ==> AtMost(out[i], n)
  }

  // ---------- order, cycle and lexicographic minimality ----------

  /** Along a dependency walk positions in an order strictly decrease. */
  lemma {:induction false} WalkDescends(mods: Deps, out: seq<string>, p: seq<string>, i: nat)
    requires IsOrder(mods, out) && IsCycle(mods, p) && 0 < i < |p|
    requires p[0] in out
    ensures exists a, b :: 0 <= b < a < |out| && out[a] == p[0] && out[b] == p[i]
  {
    assert p[0] in mods;
    if i == 1 {
      var a :| 0 <= a < |out| && out[a] == p[0];
      assert p[1] in mods[out[a]];
      var b :| 0 <= b < a && out[..a][b] == p[1];
      assert out[b] == p[i];
    } else {
      WalkDescends(mods, out, p, i - 1);
      var a, c :| 0 <= c < a < |out| && out[a] == p[0] && out[c] == p[i - 1];
      assert p[i] in mods[out[c]];
      var b :| 0 <= b < c && out[..c][b] == p[i];
      assert out[b] == p[i];
    }
  }

  lemma OrderedIsAcyclic(mods: Deps, out: seq<string>)
    requires IsOrder(mods, out)
    ensures Present(mods) && !Cyclic(mods)
  {
    forall n, d | n in mods && d in mods[n] ensures d in mods {
      assert n in Elems(out);
      var i :| 0 <= i < |out| && out[i] == n;
      assert d in out[..i];
      assert d in Elems(out);
    }
    if Cyclic(mods) {
      var p :| IsCycle(mods, p);
      assert p[0] in Elems(out);
      WalkDescends(mods, out, p, |p| - 1);
    }
  }

  lemma {:induction false} NoDupSize(s: seq<string>)
    requires NoDup(s)
    ensures |Elems(s)| == |s|
  {
    if s != [] {
      var front := s[..|s| - 1];
      NoDupSize(front);
      assert Elems(s) == Elems(front) + {s[|s| - 1]};
    }
  }

  /** A walk whose last name depends on an earlier one closes a cycle. */
  lemma CloseCycle(mods: Deps, walk: seq<string>, k: nat)
    requires k < |walk| && forall i :: 0 <= i < |walk| ==> walk[i] in mods
    requires forall i :: 0 <= i < |walk| - 1 ==> walk[i + 1] in mods[walk[i]]
    requires walk[k] in mods[walk[|walk| - 1]]
    ensures Cyclic(mods)
  {
    var p := walk[k..] + [walk[k]];
    forall i | 0 <= i < |p| - 1 ensures p[i] in mods && p[i + 1] in mods[p[i]] {
      assert p[i] == walk[k + i];
      if i < |p| - 2 { assert p[i + 1] == walk[k + i + 1]; }
    }
    assert IsCycle(mods, p);
  }

  predicate WalkIn(mods: Deps, stuck: set<string>, walk: seq<string>) {
    && walk != [] && NoDup(walk) && Elems(walk) <= stuck
    && (forall i :: 0 <= i < |walk| - 1 ==> walk[i] in mods && walk[i + 1] in mods[walk[i]])
  }

  lemma ElemsSnoc(s: seq<string>, x: string)
    ensures Elems(s + [x]) == Elems(s) + {x}
  {
  }

  lemma NoDupSnoc(s: seq<string>, x: string)
    requires NoDup(s) && x !in s
    ensures NoDup(s + [x])
  {
  }

  lemma ExtendWalk(mods: Deps, stuck: set<string>, walk: seq<string>, d: string)
    requires WalkIn(mods, stuck, walk) && d in stuck && d !in walk
    requires walk[|walk| - 1] in mods && d in mods[walk[|walk| - 1]]
    ensures WalkIn(mods, stuck, walk + [d])
  {
    ElemsSnoc(walk, d);
    NoDupSnoc(walk, d);
  }

  lemma WalkIsShort(mods: Deps, stuck: set<string>, walk: seq<string>)
    requires WalkIn(mods, stuck, walk)
    ensures |walk| <= |stuck|
  {
    NoDupSize(walk);
    SubsetSize(Elems(walk), stuck);
  }

  /** A set in which everyone has a dependency inside the set holds a cycle: extend a walk
      inside it until a name repeats. */
  lemma {:induction false} StuckIsCyclic(mods: Deps, stuck: set<string>, walk: seq<string>)
    requires stuck <= mods.Keys
    requires forall n :: n in stuck ==> exists d :: d in mods[n] && d in stuck
    requires WalkIn(mods, stuck, walk)
    ensures Cyclic(mods)
    decreases |stuck| - |walk|
  {
    assert forall i :: 0 <= i < |walk| ==> walk[i] in Elems(walk);
    assert walk[|walk| - 1] in stuck;
    var d :| d in mods[walk[|walk| - 1]] && d in stuck;
    if d in walk {
      var k :| 0 <= k < |walk| && walk[k] == d;
      CloseCycle(mods, walk, k);
    } else {
      ExtendWalk(mods, stuck, walk, d);
      WalkIsShort(mods, stuck, walk + [d]);
      StuckIsCyclic(mods, stuck, walk + [d]);
    }
  }

  lemma SubsetSize(a: set<string>, b: set<string>)
    requires a <= b
    ensures |a| <= |b| && (|a| == |b| ==> a == b)
  {
    assert b == a + (b - a);
  }

  /** A greedy order is an order. */
  lemma GreedyIsOrder(mods: Deps, out: seq<string>)
    requires Greedy(mods, out) && Elems(out) == mods.Keys
    ensures IsOrder(mods, out)
  {
    forall i, j | 0 <= i < j < |out| ensures out[i] != out[j] {
      assert out[..j][i] == out[i];
      assert Ready(mods, Elems(out[..j]), out[j]);
    }
    forall i, d | 0 <= i < |out| && d in mods[out[i]] ensures d in out[..i] {
      assert Ready(mods, Elems(out[..i]), out[i]);
    }
  }

  /** The greedy order comes first, lexicographically, among all valid orders: where it
      first differs from another one it has the smaller name. */
  lemma GreedyIsLeast(mods: Deps, out: seq<string>, other: seq<string>, i: nat)
    requires Greedy(mods, out) && Elems(out) == mods.Keys && IsOrder(mods, other)
    requires i < |out| && i < |other| && out[..i] == other[..i] && out[i] != other[i]
    ensures Before(out[i], other[i])
  {
    assert other[i] in Elems(other);
    assert forall k :: 0 <= k < i ==> other[..i][k] == other[k];
    assert Ready(mods, Elems(other[..i]), other[i]);
    assert AtMost(out[i], other[i]);
  }

  lemma OrdersHaveOneLength(mods: Deps, out: seq<string>, other: seq<string>)
    requires IsOrder(mods, out) && IsOrder(mods, other)
    ensures |out| == |other|
  {
    NoDupSize(out);
    NoDupSize(other);
  }

  /** `out` and `other` first differ at `k`, where `out` has the smaller name. */
  predicate SmallerAt(out: seq<string>, other: seq<string>, k: nat) {
    k < |out| && k < |other| && out[..k] == other[..k] && Before(out[k], other[k])
  }

  /** Either the orders agree up to `i`, or they differ at an earlier position, where the
      greedy one is smaller. */
  lemma {:induction false} FirstDifference(mods: Deps, out: seq<string>, other: seq<string>, i: nat)
    requires Greedy(mods, out) && Elems(out) == mods.Keys && IsOrder(mods, other)
    requires i <= |out| == |other|
    ensures out[..i] == other[..i] || exists k: nat :: SmallerAt(out, other, k)
  {
    if i > 0 {
      FirstDifference(mods, out, other, i - 1);
      if out[..i - 1] == other[..i - 1] {
        if out[i - 1] != other[i - 1] {
          GreedyIsLeast(mods, out, other, i - 1);
          assert SmallerAt(out, other, i - 1);
        } else {
          TakeNext(out, i - 1);
          TakeNext(other, i - 1);
        }
      }
    }
  }

  /** The result is the lexicographically least of all dependency orders: where another order
      first differs, the name that stands here is a beginning of the name there, or has the
      smaller character where the two names first differ. */
  lemma LexicographicallyLeast(mods: Deps, out: seq<string>, other: seq<string>)
    requires Greedy(mods, out) && Elems(out) == mods.Keys && IsOrder(mods, other)
    ensures out == other
            || exists k :: 0 <= k < |out| && k < |other| && out[..k] == other[..k] && out[k] != other[k]
                           && (out[k] < other[k]
                               || exists j :: 0 <= j < |out[k]| && j < |other[k]|
                                              && out[k][..j] == other[k][..j] && out[k][j] < other[k][j])
  {
    LeastByOrder(mods, out, other);
    if k: nat :| SmallerAt(out, other, k) {
      BeforeIff(out[k], other[k]);
    }
  }

  lemma LeastByOrder(mods: Deps, out: seq<string>, other: seq<string>)
    requires Greedy(mods, out) && Elems(out) == mods.Keys && IsOrder(mods, other)
    ensures out == other || exists k: nat :: SmallerAt(out, other, k)
  {
    GreedyIsOrder(mods, out);
    OrdersHaveOneLength(mods, out, other);
    FirstDifference(mods, out, other, |out|);
    assert out[..|out|] == out && other[..|other|] == other;
  }

  lemma {:induction false} GreedyPrefixes(mods: Deps, out: seq<string>, other: seq<string>, i: nat)
    requires Greedy(mods, out) && Greedy(mods, other) && IsOrder(mods, out) && IsOrder(mods, other)
    requires i <= |out| == |other|
    ensures out[..i] == other[..i]
  {
    hide Greedy, Before;
    if i > 0 {
      GreedyPrefixes(mods, out, other, i - 1);
      if out[i - 1] != other[i - 1] {
        GreedyIsLeast(mods, out, other, i - 1);
        GreedyIsLeast(mods, other, out, i - 1);
        BeforeTransitive(out[i - 1], other[i - 1], out[i - 1]);
        BeforeIrreflexive(out[i - 1]);
      }
      TakeNext(out, i - 1);
      TakeNext(other, i - 1);
    }
  }

  /** Hence the result does not depend on the order in which a map is walked. */
  lemma GreedyIsUnique(mods: Deps, out: seq<string>, other: seq<string>)
    requires Greedy(mods, out) && Greedy(mods, other) && Elems(out) == mods.Keys == Elems(other)
    ensures out == other
  {
    GreedyIsOrder(mods, out);
    GreedyIsOrder(mods, other);
    OrdersHaveOneLength(mods, out, other);
    GreedyPrefixes(mods, out, other, |out|);
    assert out[..|out|] == out && other[..|other|] == other;
  }

  // ---------- counting occurrences and unmet dependencies ----------

  function Occ(s: seq<string>, x: string): nat {
    if s == [] then 0 else Occ(s[..|s| - 1], x) + (if s[|s| - 1] == x then 1 else 0)
  }

  lemma OccSnoc(s: seq<string>, y: string, x: string)
    ensures Occ(s + [y], x) == Occ(s, x) + (if y == x then 1 else 0)
  {
    assert (s + [y])[..|s|] == s;
  }

  lemma {:induction false} OccIsMultiplicity(s: seq<string>, x: string)
    ensures Occ(s, x) == multiset(s)[x]
  {
    if s != [] {
      OccIsMultiplicity(s[..|s| - 1], x);
      assert s == s[..|s| - 1] + [s[|s| - 1]];
    }
  }

  lemma {:induction false} OccPrefix(s: seq<string>, k: nat)
    requires k < |s|
    ensures Occ(s[..k], s[k]) < Occ(s, s[k])
    decreases |s|
  {
    var front := s[..|s| - 1];
    if k < |front| {
      assert front[..k] == s[..k];
      OccPrefix(front, k);
    }
  }

  lemma TakeNext(s: seq<string>, k: nat)
    requires k < |s|
    ensures s[..k + 1] == s[..k] + [s[k]]
  {
  }

  function Unmet(ds: seq<string>, done: set<string>): nat {
    if ds == [] then 0
    else Unmet(ds[..|ds| - 1], done) + (if ds[|ds| - 1] in done then 0 else 1)
  }

  lemma {:induction false} UnmetAll(ds: seq<string>)
    ensures Unmet(ds, {}) == |ds|
  {
    if ds != [] { UnmetAll(ds[..|ds| - 1]); }
  }

  lemma {:induction false} UnmetZero(ds: seq<string>, done: set<string>)
    ensures Unmet(ds, done) == 0 <==> forall d :: d in ds ==> d in done
  {
    if ds != [] {
      UnmetZero(ds[..|ds| - 1], done);
      assert ds == ds[..|ds| - 1] + [ds[|ds| - 1]];
    }
  }

  /** Meeting one more name lowers the count by the number of times it is listed. */
  lemma {:induction false} UnmetMeets(ds: seq<string>, done: set<string>, n: string)
    requires n !in done
    ensures Unmet(ds, done) == Unmet(ds, done + {n}) + Occ(ds, n)
  {
    if ds != [] {
      UnmetMeets(ds[..|ds| - 1], done, n);
    }
  }

  // ---------- the algorithm ----------

  /** The names of a map, in whatever order the map is walked, then sorted. */
  method SortedNames(mods: Deps) returns (names: seq<string>)
    ensures Sorted(names) && NoDup(names) && Elems(names) == mods.Keys
  {
    names := [];
    var left := mods.Keys;
    while left != {}
      invariant left <= mods.Keys && Elems(names) == mods.Keys - left && NoDup(names)
      decreases left
    {
      var n :| n in left;
      assert n !in Elems(names);
      left := left - {n};
      assert Elems(names + [n]) == Elems(names) + {n};
      names := names + [n];
    }
    var sorted := Sort(names);
    NoDupFromMultiset(names, sorted);
    assert Elems(sorted) == Elems(names);
    names := sorted;
  }

  lemma {:induction false} CountOne(s: seq<string>)
    ensures NoDup(s) <==> forall x :: multiset(s)[x] <= 1
  {
    if s != [] {
      var n := |s| - 1;
      var front, last := s[..n], s[n];
      CountOne(front);
      assert s == front + [last];
      assert last in front <==> multiset(front)[last] > 0;
      if forall x :: multiset(s)[x] <= 1 {
        assert multiset(s)[last] <= 1;
        assert forall x :: multiset(front)[x] <= multiset(s)[x];
        assert last !in front;
      }
      if NoDup(s) {
        assert NoDup(front) && last !in front;
        forall x ensures multiset(s)[x] <= 1 {
          assert multiset(front)[x] <= 1;
        }
      }
    }
  }

  lemma NoDupFromMultiset(s: seq<string>, t: seq<string>)
    requires NoDup(s) && multiset(s) == multiset(t)
    ensures NoDup(t)
  {
    CountOne(s);
    CountOne(t);
  }

  datatype Graph = Graph(inDegree: map<string, int>, children: map<string, seq<string>>)

  function ListOf(mods: Deps, n: string): seq<string> {
    if n in mods then mods[n] else []
  }

  /** `children` lists, for every name, who depends on it, with multiplicity; `inDegree`
      counts dependencies. */
  ghost predicate Describes(g: Graph, mods: Deps) {
    && g.inDegree.Keys == mods.Keys == g.children.Keys
    && (forall n :: n in mods ==> g.inDegree[n] == |mods[n]|)
    && (forall d, n :: d in mods ==> Occ(g.children[d], n) == Occ(ListOf(mods, n), d))
  }

  function WithEdge(g: Graph, name: string, dep: string): Graph
    requires name in g.inDegree && dep in g.children
  {
    Graph(g.inDegree[name := g.inDegree[name] + 1], g.children[dep := g.children[dep] + [name]])
  }

  /** Reading one more dependency keeps the graph in step with the lists read so far. */
  lemma AddEdge(g: Graph, seen: Deps, name: string, dep: string)
    requires Describes(g, seen) && name in seen && dep in seen
    ensures Describes(WithEdge(g, name, dep), seen[name := seen[name] + [dep]])
  {
    var g', seen' := WithEdge(g, name, dep), seen[name := seen[name] + [dep]];
    forall d, n | d in seen' ensures Occ(g'.children[d], n) == Occ(ListOf(seen', n), d) {
      OccSnoc(g.children[dep], name, n);
      OccSnoc(seen[name], dep, d);
      assert Occ(g.children[d], n) == Occ(ListOf(seen, n), d);
    }
  }

  /** Read the dependencies of one module into the graph. */
  method AddModule(mods: Deps, g0: Graph, ghost seen: Deps, name: string) returns (r: Result<Graph, SortError>)
    requires name in mods && seen.Keys == mods.Keys && Describes(g0, seen) && seen[name] == []
    ensures r.Success? ==> Describes(r.value, seen[name := mods[name]]) && Listed(mods, name)
    ensures r.Failure? ==> r.error.MissingDependency? && r.error.name == name
                           && r.error.dep in mods[name] && r.error.dep !in mods
  {
    var g, ds := g0, mods[name];
    ghost var part := seen;
    for k := 0 to |ds|
      invariant part.Keys == mods.Keys && part == seen[name := ds[..k]] && Describes(g, part)
      invariant forall j :: 0 <= j < k ==> ds[j] in mods
    {
      if ds[k] !in mods {
        return Failure(MissingDependency(name, ds[k]));
      }
      AddEdge(g, part, name, ds[k]);
      TakeNext(ds, k);
      g, part := WithEdge(g, name, ds[k]), part[name := part[name] + [ds[k]]];
    }
    assert ds[..|ds|] == ds;
    r := Success(g);
  }

  function Read(mods: Deps, done: seq<string>): (r: Deps)
    ensures r.Keys == mods.Keys
    ensures forall n :: n in mods ==> r[n] == if n in done then mods[n] else []
  {
    map n | n in mods :: if n in done then mods[n] else []
  }

  lemma ReadNext(mods: Deps, names: seq<string>, i: nat)
    requires i < |names| && NoDup(names) && names[i] in mods
    ensures Read(mods, names[..i])[names[i]] == []
    ensures Read(mods, names[..i])[names[i] := mods[names[i]]] == Read(mods, names[..i + 1])
  {
    TakeNext(names, i);
    assert names[i] !in names[..i];
  }

  /** The modules named before position `i` have been read. */
  ghost predicate BuiltTo(mods: Deps, names: seq<string>, i: nat, g: Graph)
    requires i <= |names|
  {
    Describes(g, Read(mods, names[..i])) && forall k :: 0 <= k < i ==> Listed(mods, names[k])
  }

  lemma BuiltNext(mods: Deps, names: seq<string>, i: nat, g: Graph)
    requires i < |names| && NoDup(names) && names[i] in mods && Listed(mods, names[i])
    requires forall k :: 0 <= k < i ==> Listed(mods, names[k])
    requires Describes(g, Read(mods, names[..i])[names[i] := mods[names[i]]])
    ensures BuiltTo(mods, names, i + 1, g)
  {
    ReadNext(mods, names, i);
  }

  method BuildGraph(mods: Deps, names: seq<string>) returns (r: Result<Graph, SortError>)
    requires NoDup(names) && Elems(names) == mods.Keys
    ensures r.Success? ==> Present(mods) && Describes(r.value, mods)
    ensures r.Failure? ==>
      r.error.MissingDependency? && r.error.name in mods && r.error.dep in mods[r.error.name] && r.error.dep !in mods
  {
    var g := EmptyGraph(mods);
    for i := 0 to |names|
      invariant BuiltTo(mods, names, i, g)
    {
      assert names[i] in Elems(names);
      ReadNext(mods, names, i);
      var added := AddModule(mods, g, Read(mods, names[..i]), names[i]);
      if added.Failure? { return added; }
      g := added.value;
      BuiltNext(mods, names, i, g);
    }
    assert names[..|names|] == names;
    AllRead(mods, names);
    r := Success(g);
  }

  function EmptyGraph(mods: Deps): (g: Graph)
    ensures Describes(g, Read(mods, []))
  {
    Graph(map n | n in mods :: 0, map n | n in mods :: [])
  }

  lemma AllRead(mods: Deps, names: seq<string>)
    requires Elems(names) == mods.Keys
    requires forall k :: 0 <= k < |names| ==> Listed(mods, names[k])
    ensures Read(mods, names) == mods && Present(mods)
  {
    forall n | n in mods ensures n in names && Listed(mods, n) {
      assert n in Elems(names);
    }
  }

  /** Lowering the count of every dependent of `n`, one occurrence at a time; a name joins
      the queue when its count reaches zero. `after[c]` is the count without `n`. */
  method Release(next: seq<string>, ghost after: map<string, nat>, inDegree0: map<string, int>, queue0: seq<string>)
    returns (inDegree: map<string, int>, queue: seq<string>)
    requires inDegree0.Keys == after.Keys && forall c :: c in next ==> c in after
    requires forall c :: c in after ==> inDegree0[c] == after[c] + Occ(next, c)
    requires Sorted(queue0) && NoDup(queue0)
    requires forall c :: c in queue0 ==> c in after && inDegree0[c] == 0
    ensures inDegree == after
    ensures Sorted(queue) && NoDup(queue)
    ensures forall c :: c in queue <==> c in queue0 || (c in next && after[c] == 0)
  {
    inDegree, queue := inDegree0, queue0;
    ghost var freed: set<string> := {};
    for j := 0 to |next|
      invariant inDegree.Keys == after.Keys
      invariant forall c :: c in after ==> inDegree[c] == inDegree0[c] - Occ(next[..j], c)
      invariant Sorted(queue) && NoDup(queue) && forall c :: c in queue <==> c in queue0 || c in freed
      invariant forall c :: c in freed <==> c in next[..j] && inDegree[c] == 0
    {
      var child := next[j];
      TakeNext(next, j);
      OccPrefix(next, j);
      forall c ensures Occ(next[..j + 1], c) == Occ(next[..j], c) + (if child == c then 1 else 0) {
        OccSnoc(next[..j], child, c);
      }
      inDegree := inDegree[child := inDegree[child] - 1];
      if inDegree[child] == 0 {
        queue := Enqueue(queue, child);
        freed := freed + {child};
      }
    }
    assert next[..|next|] == next;
  }

  method Enqueue(queue0: seq<string>, child: string) returns (queue: seq<string>)
    requires NoDup(queue0) && child !in queue0
    ensures Sorted(queue) && NoDup(queue) && forall c :: c in queue <==> c == child || c in queue0
  {
    queue := Sort(queue0 + [child]);
    NoDupFromMultiset(queue0 + [child], queue);
  }

  ghost predicate Counted(mods: Deps, out: seq<string>, inDegree: map<string, int>) {
    inDegree.Keys == mods.Keys && forall c :: c in mods ==> inDegree[c] == Unmet(mods[c], Elems(out))
  }

  ghost predicate Queued(mods: Deps, out: seq<string>, queue: seq<string>) {
    Sorted(queue) && NoDup(queue) && forall c :: c in queue <==> Ready(mods, Elems(out), c)
  }

  lemma ZeroIsReady(mods: Deps, out: seq<string>, inDegree: map<string, int>)
    requires Counted(mods, out, inDegree)
    ensures forall c :: Ready(mods, Elems(out), c) <==> c in mods && c !in out && inDegree[c] == 0
  {
    forall c | c in mods ensures Ready(mods, Elems(out), c) <==> c !in out && inDegree[c] == 0 {
      UnmetZero(mods[c], Elems(out));
    }
  }

  /** Appending the least ready name keeps an order greedy. */
  lemma EmitLeast(mods: Deps, out: seq<string>, queue: seq<string>)
    requires Greedy(mods, out) && Queued(mods, out, queue) && queue != []
    ensures Greedy(mods, out + [queue[0]])
  {
    var longer := out + [queue[0]];
    assert longer[..|out|] == out;
    forall i | 0 <= i < |longer|
      ensures Ready(mods, Elems(longer[..i]), longer[i])
      ensures forall n :: Ready(mods, Elems(longer[..i]), n) ==> AtMost(longer[i], n)
    {
      if i < |out| {
        assert longer[..i] == out[..i];
      } else {
        assert queue[0] in queue;
      }
    }
  }

  /** Emitted modules have all their dependencies emitted. */
  lemma EmittedAreMet(mods: Deps, out: seq<string>, c: string)
    requires Greedy(mods, out) && c in out
    ensures c in mods && Unmet(mods[c], Elems(out)) == 0
  {
    var i :| 0 <= i < |out| && out[i] == c;
    assert Ready(mods, Elems(out[..i]), c);
    assert Elems(out[..i]) <= Elems(out);
    UnmetZero(mods[c], Elems(out));
  }

  /** What `children` must say for the counts to stay right when `n` is emitted. */
  function After(mods: Deps, out: seq<string>): map<string, nat> {
    map c | c in mods :: Unmet(mods[c], Elems(out))
  }

  lemma EmitCounts(mods: Deps, g: Graph, out: seq<string>, inDegree: map<string, int>, n: string, next: seq<string>)
    requires Describes(g, mods) && Counted(mods, out, inDegree)
    requires n in mods && n !in out && multiset(next) == multiset(g.children[n])
    ensures forall c :: c in mods ==> inDegree[c] == After(mods, out + [n])[c] + Occ(next, c)
    ensures forall c :: c in next <==> c in mods && n in mods[c]
  {
    assert Elems(out + [n]) == Elems(out) + {n};
    forall c ensures Occ(next, c) == Occ(ListOf(mods, c), n) && (c in next <==> Occ(next, c) > 0) {
      OccIsMultiplicity(next, c);
      OccIsMultiplicity(g.children[n], c);
    }
    forall c | c in mods ensures inDegree[c] == After(mods, out + [n])[c] + Occ(next, c) {
      UnmetMeets(mods[c], Elems(out), n);
    }
    forall c ensures Occ(ListOf(mods, c), n) > 0 <==> c in mods && n in mods[c] {
      OccIsMultiplicity(ListOf(mods, c), n);
    }
  }

  /** The queue after emitting `n` holds exactly the names that are ready then. */
  lemma EmitQueue(mods: Deps, out: seq<string>, n: string, queue: seq<string>, next: seq<string>, rest: seq<string>)
    requires Ready(mods, Elems(out), n)
    requires forall c :: c in queue <==> Ready(mods, Elems(out), c)
    requires forall c :: c in queue <==> c == n || c in rest
    requires n !in rest && (forall c :: c in next <==> c in mods && n in mods[c])
    requires forall c :: c in out ==> c in mods && Unmet(mods[c], Elems(out)) == 0
    ensures forall c :: Ready(mods, Elems(out + [n]), c) <==> c in rest || (c in next && After(mods, out + [n])[c] == 0)
  {
    assert Elems(out + [n]) == Elems(out) + {n};
    forall c ensures Ready(mods, Elems(out + [n]), c) <==> c in rest || (c in next && After(mods, out + [n])[c] == 0) {
      if c in mods {
        UnmetZero(mods[c], Elems(out) + {n});
        UnmetZero(mods[c], Elems(out));
      }
    }
  }

  ghost predicate AllMet(mods: Deps, out: seq<string>) {
    forall c :: c in out ==> c in mods && Unmet(mods[c], Elems(out)) == 0
  }

  /** The head of a duplicate-free queue and the others. */
  lemma Headed(queue: seq<string>)
    requires NoDup(queue) && Sorted(queue) && queue != []
    ensures NoDup(queue[1..]) && Sorted(queue[1..]) && queue[0] !in queue[1..]
    ensures forall c :: c in queue <==> c == queue[0] || c in queue[1..]
  {
  }

  /** One turn of the main loop. */
  method Emit(mods: Deps, ghost g: Graph, children: map<string, seq<string>>, ghost out: seq<string>,
              inDegree0: map<string, int>, queue0: seq<string>)
    returns (inDegree: map<string, int>, queue: seq<string>)
    requires Describes(g, mods) && children == g.children
    requires AllMet(mods, out) && Counted(mods, out, inDegree0) && Queued(mods, out, queue0) && queue0 != []
    ensures Counted(mods, out + [queue0[0]], inDegree) && Queued(mods, out + [queue0[0]], queue)
  {
    var n, rest := queue0[0], queue0[1..];
    Headed(queue0);
    assert Ready(mods, Elems(out), n);
    var next := Sort(children[n]);
    EmitCounts(mods, g, out, inDegree0, n, next);
    EmitQueue(mods, out, n, queue0, next, rest);
    forall c | c in rest ensures c in mods && inDegree0[c] == 0 {
      assert Ready(mods, Elems(out), c);
      UnmetZero(mods[c], Elems(out));
    }
    inDegree, queue := Release(next, After(mods, out + [n]), inDegree0, rest);
  }

  method TopoSort(mods: Deps) returns (r: Result<seq<string>, SortError>)
    ensures r.Success? <==> Present(mods) && !Cyclic(mods)
    ensures r.Success? ==> IsOrder(mods, r.value) && Greedy(mods, r.value)
    ensures r.Failure? && r.error.MissingDependency? ==>
      r.error.name in mods && r.error.dep in mods[r.error.name] && r.error.dep !in mods
    ensures r.Failure? && r.error.DependencyCycle? ==> Present(mods) && Cyclic(mods)
  {
    var names := SortedNames(mods);
    var built := BuildGraph(mods, names);
    if built.Failure? { return Failure(built.error); }
    var inDegree, children := built.value.inDegree, built.value.children;
    var queue := InitialQueue(mods, names, inDegree);
    var out: seq<string> := [];
    InitialCounts(mods, inDegree);
    while queue != []
      invariant Greedy(mods, out) && Counted(mods, out, inDegree) && Queued(mods, out, queue)
      decreases mods.Keys - Elems(out)
    {
      var n := queue[0];
      assert n in queue && Ready(mods, Elems(out), n);
      EmitLeast(mods, out, queue);
      assert n in Elems(out + [n]) && Elems(out) <= Elems(out + [n]);
      forall c | c in out ensures c in mods && Unmet(mods[c], Elems(out)) == 0 { EmittedAreMet(mods, out, c); }
      inDegree, queue := Emit(mods, built.value, children, out, inDegree, queue);
      out := out + [n];
    }
    r := Conclude(mods, out);
  }

  lemma InitialCounts(mods: Deps, inDegree: map<string, int>)
    requires inDegree.Keys == mods.Keys && forall n :: n in mods ==> inDegree[n] == |mods[n]|
    ensures Counted(mods, [], inDegree)
    ensures forall c :: Ready(mods, Elems([]), c) <==> c in mods && inDegree[c] == 0
  {
    assert Elems([]) == {};
    forall c | c in mods ensures inDegree[c] == Unmet(mods[c], {}) { UnmetAll(mods[c]); }
    ZeroIsReady(mods, [], inDegree);
  }

  lemma StuckOnDependency(mods: Deps, done: set<string>, n: string)
    requires n in mods && n !in done && Listed(mods, n) && !Ready(mods, done, n)
    ensures exists d :: d in mods[n] && d in mods.Keys - done
  {
  }

  /** When nothing is ready and something is left, what is left holds a cycle. */
  lemma NothingReady(mods: Deps, out: seq<string>)
    requires Present(mods) && Elems(out) < mods.Keys && forall c :: !Ready(mods, Elems(out), c)
    ensures Cyclic(mods)
  {
    var stuck := mods.Keys - Elems(out);
    forall m | m in stuck ensures exists d :: d in mods[m] && d in stuck {
      assert Listed(mods, m) && !Ready(mods, Elems(out), m);
      StuckOnDependency(mods, Elems(out), m);
    }
    var n :| n in mods.Keys && n !in Elems(out);
    assert WalkIn(mods, stuck, [n]);
    StuckIsCyclic(mods, stuck, [n]);
  }

  /** The final length test, and what it means. */
  method Conclude(mods: Deps, out: seq<string>) returns (r: Result<seq<string>, SortError>)
    requires Present(mods) && Greedy(mods, out) && forall c :: !Ready(mods, Elems(out), c)
    ensures if r.Success? then r.value == out && IsOrder(mods, out) && !Cyclic(mods)
            else r.error == DependencyCycle && Cyclic(mods)
  {
    EmittedOnce(mods, out);
    NoDupSize(out);
    SubsetSize(Elems(out), mods.Keys);
    assert |mods| == |mods.Keys|;
    if |out| != |mods| {
      assert Elems(out) != mods.Keys;
      NothingReady(mods, out);
      return Failure(DependencyCycle);
    }
    GreedyIsOrder(mods, out);
    OrderedIsAcyclic(mods, out);
    r := Success(out);
  }

  lemma EmittedOnce(mods: Deps, out: seq<string>)
    requires Greedy(mods, out)
    ensures NoDup(out) && Elems(out) <= mods.Keys
  {
    forall i, j | 0 <= i < j < |out| ensures out[i] != out[j] {
      assert out[..j][i] == out[i];
      assert Ready(mods, Elems(out[..j]), out[j]);
    }
    forall x | x in Elems(out) ensures x in mods {
      EmittedAreMet(mods, out, x);
    }
  }

  method InitialQueue(mods: Deps, names: seq<string>, inDegree: map<string, int>) returns (queue: seq<string>)
    requires Sorted(names) && NoDup(names) && Elems(names) == mods.Keys == inDegree.Keys
    ensures Sorted(queue) && NoDup(queue) && forall c :: c in queue <==> c in mods && inDegree[c] == 0
  {
    queue := [];
    for i := 0 to |names|
      invariant NoDup(queue) && forall c :: c in queue <==> c in names[..i] && inDegree[c] == 0
    {
      assert names[i] in Elems(names);
      assert names[i] !in names[..i];
      if inDegree[names[i]] == 0 {
        queue := queue + [names[i]];
      }
      assert names[..i + 1] == names[..i] + [names[i]];
    }
    assert forall c :: c in names[..|names|] <==> c in Elems(names);
    var sorted := Sort(queue);
    NoDupFromMultiset(queue, sorted);
    queue := sorted;
  }

  /** Modules that are enabled, in dependency order. */
  method ResolveEnabled(mods: Deps, enabled: string -> bool) returns (r: Result<seq<string>, SortError>)
    ensures var active := map n | n in mods && enabled(n) :: mods[n];
            && (r.Success? <==> Present(active) && !Cyclic(active))
            && (r.Success? ==> IsOrder(active, r.value) && Greedy(active, r.value))
  {
    r := TopoSort(map n | n in mods && enabled(n) :: mods[n]);
  }
}

/** buildFixtPlan: from a flat list of tests to orphans and a fixture tree. */
module FixturePlan {
  import opened FixtureGraph
  import opened FixtureTree
  import Sorting

  /** A resolved test: hops counts the bundles between this one and the one that holds the test. */
  datatype Entity = Entity(name: string, fixture: string, hops: nat, startFixture: string, skipped: bool)

  /** fixtTreeParent. */
  function TreeParent(t: Entity): string { if t.hops > 0 then t.startFixture else t.fixture }

  ghost predicate Rooted(parents: Parents, start: string, f: string) { Above(parents, f, start) }

  /** The fixtures to set up for f: those on the way up from f below the start fixture. */
  ghost function Needed(parents: Parents, start: string, f: string): set<string> {
    set g | g in parents && g != start && Above(parents, f, g) && Rooted(parents, start, g)
  }

  lemma {:induction false} UpHeight(parents: Parents, f: string, j: nat, g: string)
    requires Acyclic(parents) && Up(parents, f, j) == [g]
    ensures Height(parents, f) == Height(parents, g) + j
    decreases j
  {
    if j > 0 {
      HeightOfParent(parents, f);
      UpHeight(parents, parents[f], j - 1, g);
    }
  }

  lemma AboveHeight(parents: Parents, f: string, g: string)
    requires Acyclic(parents) && Above(parents, f, g)
    ensures Height(parents, g) <= Height(parents, f)
    ensures Height(parents, g) == Height(parents, f) ==> f == g
  {
    var j: nat :| Up(parents, f, j) == [g];
    UpHeight(parents, f, j, g);
  }

  lemma NeededByStart(parents: Parents, start: string)
    requires Acyclic(parents)
    ensures Needed(parents, start, start) == {}
  {
    forall g | g in Needed(parents, start, start) ensures false {
      AboveHeight(parents, start, g);
      AboveHeight(parents, g, start);
    }
  }

  lemma NeededStep(parents: Parents, start: string, f: string)
    requires Acyclic(parents) && f in parents && f != start && Rooted(parents, start, f)
    ensures Rooted(parents, start, parents[f])
    ensures Needed(parents, start, f) == Needed(parents, start, parents[f]) + {f}
  {
    forall g ensures Above(parents, f, g) <==> g == f || Above(parents, parents[f], g) { AboveParent(parents, f, g); }
  }

  /** The fixtures already in the graph and their children, as traverse maintains them. */
  ghost predicate GraphOf(parents: Parents, start: string, added: set<string>, graph: map<string, seq<string>>) {
    (forall g :: g in added ==>
      g in parents && g != start && Rooted(parents, start, g) && (parents[g] == start || parents[g] in added)) &&
    (forall p, i, j :: p in graph && 0 <= i < j < |graph[p]| ==> graph[p][i] != graph[p][j]) &&
    (forall p, i :: p in graph && 0 <= i < |graph[p]| ==> graph[p][i] in added && parents[graph[p][i]] == p) &&
    (forall g :: g in added ==> parents[g] in graph && g in graph[parents[g]])
  }

  /** What is in the graph has everything it needs there. */
  lemma {:induction false} AddedClosed(parents: Parents, start: string, added: set<string>, graph: map<string, seq<string>>, f: string)
    requires Acyclic(parents) && GraphOf(parents, start, added, graph) && f in added
    ensures Needed(parents, start, f) <= added
    decreases Height(parents, f)
  {
    NeededStep(parents, start, f);
    HeightOfParent(parents, f);
    if parents[f] == start {
      NeededByStart(parents, start);
    } else {
      AddedClosed(parents, start, added, graph, parents[f]);
    }
  }

  class Builder {
    const parents: Parents
    const start: string
    var added: set<string>
    var graph: map<string, seq<string>>

    ghost predicate Valid() reads this { Acyclic(parents) && GraphOf(parents, start, added, graph) }

    constructor (parents: Parents, start: string)
      requires Acyclic(parents)
      ensures Valid() && this.parents == parents && this.start == start && added == {} && graph == map[]
    {
      this.parents, this.start, added, graph := parents, start, {}, map[];
    }

    /** traverse: whether f hangs below the start fixture, and if not, which ancestor is missing. */
    method Traverse(f: string) returns (rooted: bool, missing: string)
      requires Valid()
      modifies this
      ensures Valid() && rooted == Rooted(parents, start, f)
      ensures rooted ==> added == old(added) + Needed(parents, start, f)
      ensures !rooted ==> LeavesAt(parents, f, missing) && added == old(added) && graph == old(graph)
      decreases Height(parents, f)
    {
      if f == start {
        AboveSelf(parents, f);
        NeededByStart(parents, start);
        return true, "";
      }
      if f in added {
        AddedClosed(parents, start, added, graph, f);
        return true, "";
      }
      if f !in parents {
        AboveSelf(parents, f);
        return false, f;
      }
      var parent := parents[f];
      HeightOfParent(parents, f);
      AboveParent(parents, f, start);
      rooted, missing := Traverse(parent);
      AboveParent(parents, f, missing);
      if rooted {
        NeededStep(parents, start, f);
        ParentNeeded(parents, start, f);
        added := added + {f};
        graph := graph[parent := (if parent in graph then graph[parent] else []) + [f]];
      }
    }
  }

  /** The parent of a rooted fixture is the start fixture or needed itself, and does not need its child. */
  lemma ParentNeeded(parents: Parents, start: string, f: string)
    requires Acyclic(parents) && f in parents && f != start && Rooted(parents, start, f)
    ensures parents[f] == start || parents[f] in Needed(parents, start, parents[f])
    ensures f !in Needed(parents, start, parents[f])
  {
    var p := parents[f];
    AboveParent(parents, f, start);
    AboveSelf(parents, p);
    if p != start && p !in parents {
      NothingAboveAbsent(parents, p, start);
    }
    HeightOfParent(parents, f);
    if Above(parents, p, f) {
      AboveHeight(parents, p, f);
    }
  }

  /** Of the names that are no fixtures here, the start fixture that a bundle reports for a test is the only
      one with which the test is rooted. */
  lemma StartFixtureIsTheRoot(parents: Parents, f: string, start: string, s: string)
    requires LeavesAt(parents, f, start) && s !in parents
    ensures Rooted(parents, s, f) <==> s == start
  {
    if Rooted(parents, s, f) { LeavesAtOnce(parents, f, s, start); }
  }

  // ----- Building the tree from the graph -----

  /** The variables that newTree captures. */
  datatype Layout = Layout(parents: Parents, start: string, added: set<string>, graph: map<string, seq<string>>,
                           tests: map<string, seq<string>>, external: map<string, seq<string>>)
  {
    ghost predicate Valid() { Acyclic(parents) && GraphOf(parents, start, added, graph) }

    predicate Has(f: string) { f == start || f in added }

    function Kids(f: string): seq<string> { At(graph, f) }
  }

  function At(m: map<string, seq<string>>, f: string): seq<string> { if f in m then m[f] else [] }

  ghost function Deeper(l: Layout, f: string): set<string>
    requires l.Valid()
  {
    set g | g in l.added && Height(l.parents, g) > Height(l.parents, f)
  }

  /** newTree. */
  function NewTree(l: Layout, name: string): (t: Tree)
    requires l.Valid() && l.Has(name)
    ensures t.fixt == name && t.tests == At(l.tests, name) && t.externalTests == At(l.external, name)
    decreases Deeper(l, name)
  {
    var kids := l.Kids(name);
    Tree(name, At(l.tests, name), At(l.external, name),
         seq(|kids|, i requires 0 <= i < |kids| =>
           DeeperBelow(l, name, i);
           NewTree(l, kids[i])))
  }

  lemma DeeperBelow(l: Layout, name: string, i: nat)
    requires l.Valid() && i < |l.Kids(name)|
    ensures var kid := l.Kids(name)[i]; kid in l.added && l.parents[kid] == name && kid != l.start
    ensures Deeper(l, l.Kids(name)[i]) < Deeper(l, name)
  {
    var kid := l.Kids(name)[i];
    HeightOfParent(l.parents, kid);
    assert kid in Deeper(l, name) && kid !in Deeper(l, kid);
  }

  /** How often a fixture appears in a tree. */
  ghost function Occurs(t: Tree, g: string): nat { (if t.fixt == g then 1 else 0) + OccursAll(t.children, g) }

  ghost function OccursAll(ts: seq<Tree>, g: string): nat {
    if ts == [] then 0 else Occurs(ts[0], g) + OccursAll(ts[1..], g)
  }

  /** Every node hangs below its own parent. */
  ghost predicate ParentsRespected(t: Tree, parents: Parents) {
    forall i :: 0 <= i < |t.children| ==>
      t.children[i].fixt in parents && parents[t.children[i].fixt] == t.fixt && ParentsRespected(t.children[i], parents)
  }

  /** Siblings do not lie above the same fixture. */
  lemma SiblingsApart(parents: Parents, g: string, a: string, b: string)
    requires Acyclic(parents) && a in parents && b in parents && parents[a] == parents[b]
    requires Above(parents, g, a) && Above(parents, g, b)
    ensures a == b
  {
    HeightOfParent(parents, a);
    HeightOfParent(parents, b);
    AboveLinear(parents, g, a, b);
    if Above(parents, a, b) { AboveHeight(parents, a, b); } else { AboveHeight(parents, b, a); }
  }

  /** The child of name on the way up from g. */
  lemma {:induction false} KidOnTheWay(l: Layout, name: string, g: string)
    requires l.Valid()
    requires g in l.added && g != name && Above(l.parents, g, name) && l.Has(name)
    ensures exists i :: 0 <= i < |l.Kids(name)| && Above(l.parents, g, l.Kids(name)[i])
    decreases Height(l.parents, g)
  {
    AboveParent(l.parents, g, name);
    HeightOfParent(l.parents, g);
    AboveSelf(l.parents, g);
    if l.parents[g] == name {
      var i :| 0 <= i < |l.Kids(name)| && l.Kids(name)[i] == g;
    } else {
      if l.parents[g] == l.start {
        AboveHeight(l.parents, l.start, name);
        assert Rooted(l.parents, l.start, name);
        AboveHeight(l.parents, name, l.start);
      }
      KidOnTheWay(l, name, l.parents[g]);
      var i :| 0 <= i < |l.Kids(name)| && Above(l.parents, l.parents[g], l.Kids(name)[i]);
      AboveParent(l.parents, g, l.Kids(name)[i]);
    }
  }

  /** The tree below name holds exactly the fixtures of the graph that lie below name, each once. */
  lemma {:induction false} NewTreeOccurs(l: Layout, name: string, g: string)
    requires l.Valid() && l.Has(name)
    ensures Occurs(NewTree(l, name), g) ==
      if g == name || (g in l.added && Above(l.parents, g, name)) then 1 else 0
    decreases Deeper(l, name), |l.Kids(name)| + 1
  {
    var t := NewTree(l, name);
    assert t.children[0..] == t.children;
    KidsOccur(l, name, 0, g);
    if g != name && g in l.added && Above(l.parents, g, name) {
      KidOnTheWay(l, name, g);
    }
    if i :| 0 <= i < |l.Kids(name)| && Below(l, g, l.Kids(name)[i]) {
      var kid := l.Kids(name)[i];
      DeeperBelow(l, name, i);
      AboveSelf(l.parents, name);
      AboveParent(l.parents, kid, name);
      AboveTransitive(l.parents, g, kid, name);
      AboveHeight(l.parents, g, kid);
      HeightOfParent(l.parents, kid);
    }
  }

  lemma ChildTrees(l: Layout, name: string)
    requires l.Valid() && l.Has(name)
    ensures var ts := NewTree(l, name).children;
      |ts| == |l.Kids(name)| && forall i :: 0 <= i < |ts| ==> l.Kids(name)[i] in l.added && l.Has(l.Kids(name)[i]) && ts[i] == NewTree(l, l.Kids(name)[i])
  {
    forall i | 0 <= i < |l.Kids(name)| ensures l.Kids(name)[i] in l.added { DeeperBelow(l, name, i); }
  }

  ghost predicate Below(l: Layout, g: string, f: string) { g in l.added && Above(l.parents, g, f) }

  lemma {:induction false} KidsOccur(l: Layout, name: string, i: nat, g: string)
    requires l.Valid() && l.Has(name)
    requires i <= |l.Kids(name)|
    ensures OccursAll(NewTree(l, name).children[i..], g) ==
      if exists j :: i <= j < |l.Kids(name)| && Below(l, g, l.Kids(name)[j]) then 1 else 0
    decreases Deeper(l, name), |l.Kids(name)| - i
  {
    hide NewTree, GraphOf, Acyclic, Above, Below;
    var kids := l.Kids(name);
    var ts := NewTree(l, name).children;
    ChildTrees(l, name);
    if i < |kids| {
      assert ts[i..][1..] == ts[i + 1..];
      DeeperBelow(l, name, i);
      KidOccurs(l, kids[i], g);
      KidsOccur(l, name, i + 1, g);
      forall j | i < j < |kids| && Below(l, g, kids[j]) ensures !Below(l, g, kids[i]) { KidsApart(l, name, i, j, g); }
    }
  }

  lemma {:induction false} KidOccurs(l: Layout, kid: string, g: string)
    requires l.Valid() && kid in l.added
    ensures Occurs(NewTree(l, kid), g) == if Below(l, g, kid) then 1 else 0
    decreases Deeper(l, kid), |l.Kids(kid)| + 2
  {
    NewTreeOccurs(l, kid, g);
    AboveSelf(l.parents, kid);
  }

  /** No fixture lies below two children. */
  lemma KidsApart(l: Layout, name: string, i: nat, j: nat, g: string)
    requires l.Valid() && i < j < |l.Kids(name)| && Below(l, g, l.Kids(name)[j])
    ensures !Below(l, g, l.Kids(name)[i])
  {
    DeeperBelow(l, name, i);
    DeeperBelow(l, name, j);
    if Below(l, g, l.Kids(name)[i]) { SiblingsApart(l.parents, g, l.Kids(name)[i], l.Kids(name)[j]); }
  }

  lemma {:induction false} NewTreeParents(l: Layout, name: string)
    requires l.Valid() && l.Has(name)
    ensures ParentsRespected(NewTree(l, name), l.parents)
    decreases Deeper(l, name)
  {
    forall i | 0 <= i < |l.Kids(name)|
      ensures ParentsRespected(NewTree(l, l.Kids(name)[i]), l.parents)
      ensures l.parents[l.Kids(name)[i]] == name
    {
      DeeperBelow(l, name, i);
      NewTreeParents(l, l.Kids(name)[i]);
    }
  }

  // ----- Filing the tests -----

  /** Under which fixture a rooted test is filed; an external test that will be skipped goes under "". */
  function Key(t: Entity): string {
    if t.hops == 0 then t.fixture else if t.skipped then "" else t.startFixture
  }

  ghost predicate IsRooted(parents: Parents, start: string, t: Entity) { Rooted(parents, start, TreeParent(t)) }

  /** How many rooted tests (external or not) called x are filed under f. */
  ghost function FiledCount(parents: Parents, start: string, tests: seq<Entity>, ext: bool, f: string, x: string): nat {
    if tests == [] then 0
    else
      var t := tests[|tests| - 1];
      FiledCount(parents, start, tests[..|tests| - 1], ext, f, x) +
      (if IsRooted(parents, start, t) && (t.hops > 0) == ext && Key(t) == f && t.name == x then 1 else 0)
  }

  ghost predicate FilesAll(parents: Parents, start: string, tests: seq<Entity>, ext: bool, m: map<string, seq<string>>) {
    forall f, x :: multiset(At(m, f))[x] == FiledCount(parents, start, tests, ext, f, x)
  }

  /** A fixture is used if some rooted test needs it. */
  ghost predicate Used(parents: Parents, start: string, tests: seq<Entity>, g: string) {
    exists i :: 0 <= i < |tests| && IsRooted(parents, start, tests[i]) && g in Needed(parents, start, TreeParent(tests[i]))
  }

  datatype Orphan = Orphan(test: Entity, missing: string)

  /** The orphans are the tests that are not rooted, each with the first ancestor that does not exist. */
  ghost predicate OrphansOf(parents: Parents, start: string, tests: seq<Entity>, orphans: seq<Orphan>) {
    if tests == [] then orphans == []
    else if IsRooted(parents, start, tests[|tests| - 1]) then OrphansOf(parents, start, tests[..|tests| - 1], orphans)
    else
      orphans != [] && orphans[|orphans| - 1].test == tests[|tests| - 1] &&
      LeavesAt(parents, TreeParent(tests[|tests| - 1]), orphans[|orphans| - 1].missing) &&
      OrphansOf(parents, start, tests[..|tests| - 1], orphans[..|orphans| - 1])
  }

  function Append(m: map<string, seq<string>>, f: string, x: string): map<string, seq<string>> { m[f := At(m, f) + [x]] }

  lemma AppendAt(m: map<string, seq<string>>, k: string, name: string, f: string, x: string)
    ensures multiset(At(Append(m, k, name), f))[x] == multiset(At(m, f))[x] + (if f == k && x == name then 1 else 0)
  {
    if f == k {
      assert multiset(At(m, f) + [name]) == multiset(At(m, f)) + multiset{name};
    }
  }

  lemma FiledNext(parents: Parents, start: string, tests: seq<Entity>, t: Entity, ext: bool, m: map<string, seq<string>>)
    requires FilesAll(parents, start, tests, ext, m)
    ensures FilesAll(parents, start, tests + [t], ext,
      if IsRooted(parents, start, t) && (t.hops > 0) == ext then Append(m, Key(t), t.name) else m)
  {
    hide IsRooted, At, Append, Key;
    assert (tests + [t])[..|tests|] == tests;
    var m' := if IsRooted(parents, start, t) && (t.hops > 0) == ext then Append(m, Key(t), t.name) else m;
    forall f, x ensures multiset(At(m', f))[x] == FiledCount(parents, start, tests + [t], ext, f, x) {
      assert multiset(At(m, f))[x] == FiledCount(parents, start, tests, ext, f, x);
      AppendAt(m, Key(t), t.name, f, x);
    }
  }

  lemma UsedNext(parents: Parents, start: string, tests: seq<Entity>, t: Entity, g: string)
    ensures Used(parents, start, tests + [t], g) <==>
      Used(parents, start, tests, g) || (IsRooted(parents, start, t) && g in Needed(parents, start, TreeParent(t)))
  {
    var all := tests + [t];
    assert all[|tests|] == t;
    if Used(parents, start, tests, g) {
      var i :| 0 <= i < |tests| && IsRooted(parents, start, tests[i]) && g in Needed(parents, start, TreeParent(tests[i]));
      assert all[i] == tests[i];
    }
  }

  /** The loop of buildFixtPlan over the tests. */
  method FileTests(tests: seq<Entity>, b: Builder)
    returns (testsToRun: map<string, seq<string>>, external: map<string, seq<string>>, orphans: seq<Orphan>)
    requires b.Valid() && b.added == {}
    modifies b
    ensures b.Valid()
    ensures FilesAll(b.parents, b.start, tests, false, testsToRun)
    ensures FilesAll(b.parents, b.start, tests, true, external)
    ensures OrphansOf(b.parents, b.start, tests, orphans)
    ensures forall g :: g in b.added <==> Used(b.parents, b.start, tests, g)
  {
    testsToRun, external, orphans := map[], map[], [];
    for i := 0 to |tests|
      invariant b.Valid()
      invariant FilesAll(b.parents, b.start, tests[..i], false, testsToRun)
      invariant FilesAll(b.parents, b.start, tests[..i], true, external)
      invariant OrphansOf(b.parents, b.start, tests[..i], orphans)
      invariant forall g :: g in b.added <==> Used(b.parents, b.start, tests[..i], g)
    {
      var t := tests[i];
      ghost var done := tests[..i];
      assert tests[..i + 1] == done + [t];
      assert (done + [t])[..i] == done;
      FiledNext(b.parents, b.start, done, t, false, testsToRun);
      FiledNext(b.parents, b.start, done, t, true, external);
      forall g ensures Used(b.parents, b.start, done + [t], g) <==>
        Used(b.parents, b.start, done, g) || (IsRooted(b.parents, b.start, t) && g in Needed(b.parents, b.start, TreeParent(t)))
      { UsedNext(b.parents, b.start, done, t, g); }
      var f := TreeParent(t);
      var rooted, missing := b.Traverse(f);
      if !rooted {
        orphans := orphans + [Orphan(t, missing)];
      } else if t.hops == 0 {
        testsToRun := Append(testsToRun, f, t.name);
      } else if t.skipped {
        external := Append(external, "", t.name);
      } else {
        external := Append(external, f, t.name);
      }
    }
    assert tests[..|tests|] == tests;
  }

  // ----- What the tree holds -----

  /** How many tests (external or not) called x a tree holds. */
  ghost function CountIn(t: Tree, ext: bool, x: string): nat {
    multiset(if ext then t.externalTests else t.tests)[x] + CountAll(t.children, ext, x)
  }

  ghost function CountAll(ts: seq<Tree>, ext: bool, x: string): nat {
    if ts == [] then 0 else CountIn(ts[0], ext, x) + CountAll(ts[1..], ext, x)
  }

  /** Every node holds the tests filed under its fixture. */
  ghost predicate HoldsFiled(t: Tree, parents: Parents, start: string, tests: seq<Entity>) {
    (forall x :: multiset(t.tests)[x] == FiledCount(parents, start, tests, false, t.fixt, x)) &&
    (forall x :: multiset(t.externalTests)[x] == FiledCount(parents, start, tests, true, t.fixt, x)) &&
    forall i :: 0 <= i < |t.children| ==> HoldsFiled(t.children[i], parents, start, tests)
  }

  lemma {:induction false} NewTreeHolds(l: Layout, tests: seq<Entity>, name: string)
    requires l.Valid() && l.Has(name)
    requires FilesAll(l.parents, l.start, tests, false, l.tests) && FilesAll(l.parents, l.start, tests, true, l.external)
    ensures HoldsFiled(NewTree(l, name), l.parents, l.start, tests)
    decreases Deeper(l, name)
  {
    forall i | 0 <= i < |l.Kids(name)| ensures HoldsFiled(NewTree(l, l.Kids(name)[i]), l.parents, l.start, tests) {
      DeeperBelow(l, name, i);
      NewTreeHolds(l, tests, l.Kids(name)[i]);
    }
  }

  /** The rooted tests called x, each counted as often as the fixture it is filed under occurs in the tree. */
  ghost function Landed(t: Tree, parents: Parents, start: string, tests: seq<Entity>, ext: bool, x: string): nat {
    if tests == [] then 0
    else
      var e := tests[|tests| - 1];
      Landed(t, parents, start, tests[..|tests| - 1], ext, x) +
      (if IsRooted(parents, start, e) && (e.hops > 0) == ext && e.name == x then Occurs(t, Key(e)) else 0)
  }

  ghost function LandedAll(ts: seq<Tree>, parents: Parents, start: string, tests: seq<Entity>, ext: bool, x: string): nat {
    if ts == [] then 0 else Landed(ts[0], parents, start, tests, ext, x) + LandedAll(ts[1..], parents, start, tests, ext, x)
  }

  lemma {:induction false} LandedSplits(t: Tree, parents: Parents, start: string, tests: seq<Entity>, ext: bool, x: string)
    ensures Landed(t, parents, start, tests, ext, x) ==
      FiledCount(parents, start, tests, ext, t.fixt, x) + LandedAll(t.children, parents, start, tests, ext, x)
    decreases tests
  {
    if tests == [] {
      LandedNone(t.children, parents, start, ext, x);
    } else {
      LandedSplits(t, parents, start, tests[..|tests| - 1], ext, x);
      LandedAllNext(t.children, parents, start, tests, ext, x);
    }
  }

  lemma {:induction false} LandedNone(ts: seq<Tree>, parents: Parents, start: string, ext: bool, x: string)
    ensures LandedAll(ts, parents, start, [], ext, x) == 0
  {
    if ts != [] { LandedNone(ts[1..], parents, start, ext, x); }
  }

  lemma {:induction false} LandedAllNext(ts: seq<Tree>, parents: Parents, start: string, tests: seq<Entity>, ext: bool, x: string)
    requires tests != []
    ensures var e := tests[|tests| - 1];
      LandedAll(ts, parents, start, tests, ext, x) ==
      LandedAll(ts, parents, start, tests[..|tests| - 1], ext, x) +
      (if IsRooted(parents, start, e) && (e.hops > 0) == ext && e.name == x then OccursAll(ts, Key(e)) else 0)
  {
    if ts != [] { LandedAllNext(ts[1..], parents, start, tests, ext, x); }
  }

  /** The tree holds exactly the rooted tests whose fixture is in it, once for each occurrence. */
  lemma {:induction false} CountIsLanded(t: Tree, parents: Parents, start: string, tests: seq<Entity>, ext: bool, x: string)
    requires HoldsFiled(t, parents, start, tests)
    ensures CountIn(t, ext, x) == Landed(t, parents, start, tests, ext, x)
    decreases t
  {
    LandedSplits(t, parents, start, tests, ext, x);
    CountAllIsLanded(t, t.children, parents, start, tests, ext, x);
  }

  lemma {:induction false} CountAllIsLanded(t: Tree, ts: seq<Tree>, parents: Parents, start: string, tests: seq<Entity>, ext: bool, x: string)
    requires forall i :: 0 <= i < |ts| ==> HoldsFiled(ts[i], parents, start, tests) && ts[i] < t
    ensures CountAll(ts, ext, x) == LandedAll(ts, parents, start, tests, ext, x)
    decreases t, |ts|
  {
    if ts != [] {
      CountIsLanded(ts[0], parents, start, tests, ext, x);
      CountAllIsLanded(t, ts[1..], parents, start, tests, ext, x);
    }
  }
}

/** buildFixtPlan as a whole, and what its tree promises. */
module PlanTree {
  import opened Events
  import opened FixtureGraph
  import opened FixtureTree
  import opened FixturePlan
  import opened Sorting

  datatype FixtPlan = FixtPlan(tree: Tree, orphans: seq<Orphan>)

  // ----- Sorting the lists -----

  function SortAll(m: map<string, seq<string>>): map<string, seq<string>> { map f | f in m :: Sort(m[f]) }

  lemma SortedAt(m: map<string, seq<string>>, f: string)
    ensures At(SortAll(m), f) == Sort(At(m, f))
  {
  }

  lemma SortedGraph(parents: Parents, start: string, added: set<string>, graph: map<string, seq<string>>)
    requires GraphOf(parents, start, added, graph)
    ensures GraphOf(parents, start, added, SortAll(graph))
  {
    var sorted := SortAll(graph);
    forall p | p in graph
      ensures forall i, j :: 0 <= i < j < |sorted[p]| ==> sorted[p][i] != sorted[p][j]
      ensures forall x :: x in sorted[p] <==> x in graph[p]
    {
      SortDistinct(graph[p]);
      SortSorts(graph[p]);
    }
    forall p, i | p in sorted && 0 <= i < |sorted[p]| ensures sorted[p][i] in added && parents[sorted[p][i]] == p {
      assert sorted[p][i] in graph[p];
    }
  }

  lemma SortedFiles(parents: Parents, start: string, tests: seq<Entity>, ext: bool, m: map<string, seq<string>>)
    requires FilesAll(parents, start, tests, ext, m)
    ensures FilesAll(parents, start, tests, ext, SortAll(m))
  {
    forall f, x ensures multiset(At(SortAll(m), f))[x] == FiledCount(parents, start, tests, ext, f, x) {
      SortedAt(m, f);
      assert multiset(At(m, f))[x] == FiledCount(parents, start, tests, ext, f, x);
    }
  }

  /** Tests and children come in the order of their names. */
  ghost predicate InOrder(t: Tree) {
    Sorted(t.tests) && Sorted(t.externalTests) &&
    (forall i, j :: 0 <= i < j < |t.children| ==> Le(t.children[i].fixt, t.children[j].fixt)) &&
    forall i :: 0 <= i < |t.children| ==> InOrder(t.children[i])
  }

  lemma {:induction false} NewTreeInOrder(l: Layout, name: string)
    requires l.Valid() && l.Has(name)
    requires forall f :: Sorted(At(l.tests, f)) && Sorted(At(l.external, f)) && Sorted(At(l.graph, f))
    ensures InOrder(NewTree(l, name))
    decreases Deeper(l, name)
  {
    var kids := l.Kids(name);
    assert Sorted(kids);
    forall i | 0 <= i < |kids| ensures InOrder(NewTree(l, kids[i])) {
      DeeperBelow(l, name, i);
      NewTreeInOrder(l, kids[i]);
    }
  }

  // ----- Sorting the orphans -----

  predicate OrphanLe(a: Orphan, b: Orphan) {
    a.test.hops < b.test.hops || (a.test.hops == b.test.hops && Le(a.test.name, b.test.name))
  }

  ghost predicate OrphansInOrder(s: seq<Orphan>) { forall i, j :: 0 <= i < j < |s| ==> OrphanLe(s[i], s[j]) }

  function InsertOrphan(x: Orphan, s: seq<Orphan>): (r: seq<Orphan>)
    ensures multiset(r) == multiset(s) + multiset{x}
  {
    if s == [] then [x]
    else if OrphanLe(x, s[0]) then [x] + s
    else
      assert s == [s[0]] + s[1..];
      [s[0]] + InsertOrphan(x, s[1..])
  }

  function SortOrphans(s: seq<Orphan>): (r: seq<Orphan>)
    ensures multiset(r) == multiset(s)
  {
    if s == [] then []
    else
      assert s == [s[0]] + s[1..];
      InsertOrphan(s[0], SortOrphans(s[1..]))
  }

  lemma {:induction false} InsertInOrder(x: Orphan, s: seq<Orphan>)
    requires OrphansInOrder(s)
    ensures OrphansInOrder(InsertOrphan(x, s))
  {
    hide Le;
    if s != [] {
      LeTotal(x.test.name, s[0].test.name);
      var r := InsertOrphan(x, s);
      if OrphanLe(x, s[0]) {
        forall j | 0 < j < |r| ensures OrphanLe(x, r[j]) {
          if j > 1 && x.test.hops == s[0].test.hops == s[j - 1].test.hops { LeTransitive(x.test.name, s[0].test.name, s[j - 1].test.name); }
        }
      } else {
        var rest := InsertOrphan(x, s[1..]);
        InsertInOrder(x, s[1..]);
        forall j | 0 < j < |r| ensures OrphanLe(s[0], r[j]) {
          assert r[j] in multiset(rest);
          assert r[j] == x || r[j] in s[1..];
        }
      }
    }
  }

  lemma {:induction false} SortedOrphans(s: seq<Orphan>)
    ensures OrphansInOrder(SortOrphans(s))
  {
    if s != [] {
      SortedOrphans(s[1..]);
      InsertInOrder(s[0], SortOrphans(s[1..]));
    }
  }

  /** The orphans of a plan are the tests that are not rooted, each with its missing ancestor, in any order. */
  ghost predicate Orphaned(parents: Parents, start: string, tests: seq<Entity>, orphans: seq<Orphan>) {
    exists filed :: OrphansOf(parents, start, tests, filed) && multiset(filed) == multiset(orphans)
  }

  // ----- Empty subtrees -----

  /** Every rooted test that needs a fixture has, at or below that fixture, a filed test. */
  ghost predicate NoIdleFixture(parents: Parents, start: string, tests: seq<Entity>) {
    forall i :: 0 <= i < |tests| && IsRooted(parents, start, tests[i]) && TreeParent(tests[i]) != start ==>
      BusyBelow(parents, start, tests, TreeParent(tests[i]))
  }

  ghost predicate BusyBelow(parents: Parents, start: string, tests: seq<Entity>, f: string) {
    exists j :: 0 <= j < |tests| && FiledBelow(parents, start, tests, j, f)
  }

  ghost predicate FiledBelow(parents: Parents, start: string, tests: seq<Entity>, j: nat, f: string)
    requires j < |tests|
  {
    IsRooted(parents, start, tests[j]) && Above(parents, Key(tests[j]), f) && Used(parents, start, tests, Key(tests[j]))
  }

  /** Only external tests that will be skipped can leave a fixture idle. */
  lemma NoSkippedNoIdle(parents: Parents, start: string, tests: seq<Entity>)
    requires Acyclic(parents)
    requires forall i :: 0 <= i < |tests| && tests[i].hops > 0 ==> !tests[i].skipped
    ensures NoIdleFixture(parents, start, tests)
  {
    forall i | 0 <= i < |tests| && IsRooted(parents, start, tests[i]) && TreeParent(tests[i]) != start
      ensures BusyBelow(parents, start, tests, TreeParent(tests[i]))
    {
      var f := TreeParent(tests[i]);
      RootedNeedsItself(parents, start, f);
      assert Used(parents, start, tests, f);
      AboveSelf(parents, f);
      assert FiledBelow(parents, start, tests, i, f);
    }
  }

  lemma RootedNeedsItself(parents: Parents, start: string, f: string)
    requires Rooted(parents, start, f) && f != start
    ensures f in Needed(parents, start, f)
  {
    AboveSelf(parents, f);
    if f !in parents { NothingAboveAbsent(parents, f, start); }
  }

  lemma {:induction false} FiledSomewhere(parents: Parents, start: string, tests: seq<Entity>, ext: bool, f: string, x: string)
    ensures FiledCount(parents, start, tests, ext, f, x) > 0 <==>
      exists i :: 0 <= i < |tests| && IsRooted(parents, start, tests[i]) && (tests[i].hops > 0) == ext && Key(tests[i]) == f && tests[i].name == x
  {
    if tests != [] {
      var init := tests[..|tests| - 1];
      FiledSomewhere(parents, start, init, ext, f, x);
      assert forall i :: 0 <= i < |init| ==> init[i] == tests[i];
    }
  }

  /** The variables that newTree captures, after the loop over the tests. */
  ghost predicate LaidOut(l: Layout, tests: seq<Entity>) {
    l.Valid() && (forall g :: g in l.added <==> Used(l.parents, l.start, tests, g)) &&
    FilesAll(l.parents, l.start, tests, false, l.tests) && FilesAll(l.parents, l.start, tests, true, l.external)
  }

  lemma FiledAt(l: Layout, tests: seq<Entity>, j: nat)
    requires LaidOut(l, tests) && j < |tests| && IsRooted(l.parents, l.start, tests[j])
    ensures At(l.tests, Key(tests[j])) != [] || At(l.external, Key(tests[j])) != []
  {
    var t := tests[j];
    FiledSomewhere(l.parents, l.start, tests, t.hops > 0, Key(t), t.name);
    assert multiset(At(if t.hops > 0 then l.external else l.tests, Key(t)))[t.name] > 0;
  }

  /** A fixture without children that is not idle has tests of its own. */
  lemma LeafBusy(l: Layout, tests: seq<Entity>, g: string)
    requires LaidOut(l, tests) && NoIdleFixture(l.parents, l.start, tests) && g in l.added
    ensures !NewTree(l, g).Empty()
  {
    if l.Kids(g) == [] {
      var i :| 0 <= i < |tests| && IsRooted(l.parents, l.start, tests[i]) && g in Needed(l.parents, l.start, TreeParent(tests[i]));
      var f := TreeParent(tests[i]);
      NeededByStart(l.parents, l.start);
      RootedNeedsItself(l.parents, l.start, f);
      assert f in l.added;
      if f != g { KidOnTheWay(l, g, f); }
      var j :| 0 <= j < |tests| && FiledBelow(l.parents, l.start, tests, j, g);
      if Key(tests[j]) != g { KidOnTheWay(l, g, Key(tests[j])); }
      FiledAt(l, tests, j);
    }
  }

  lemma {:induction false} NoIdleNoEmpty(l: Layout, tests: seq<Entity>, name: string)
    requires LaidOut(l, tests) && NoIdleFixture(l.parents, l.start, tests) && l.Has(name)
    ensures NoEmptySubtree(NewTree(l, name))
    decreases Deeper(l, name)
  {
    forall i | 0 <= i < |l.Kids(name)|
      ensures !NewTree(l, l.Kids(name)[i]).Empty() && NoEmptySubtree(NewTree(l, l.Kids(name)[i]))
    {
      DeeperBelow(l, name, i);
      LeafBusy(l, tests, l.Kids(name)[i]);
      NoIdleNoEmpty(l, tests, l.Kids(name)[i]);
    }
  }

  /** A subtree that is not empty, and has no empty subtree, has a filed test somewhere. */
  lemma {:induction false} NotEmptyBusy(l: Layout, tests: seq<Entity>, f: string)
    requires LaidOut(l, tests) && f in l.added
    requires !NewTree(l, f).Empty() && NoEmptySubtree(NewTree(l, f))
    ensures BusyBelow(l.parents, l.start, tests, f)
    decreases Deeper(l, f)
  {
    var t := NewTree(l, f);
    AboveSelf(l.parents, f);
    if t.tests != [] || t.externalTests != [] {
      var ext := t.tests == [];
      var x := if ext then t.externalTests[0] else t.tests[0];
      assert multiset(if ext then t.externalTests else t.tests)[x] > 0;
      FiledSomewhere(l.parents, l.start, tests, ext, f, x);
      var j :| 0 <= j < |tests| && IsRooted(l.parents, l.start, tests[j]) && Key(tests[j]) == f;
      assert FiledBelow(l.parents, l.start, tests, j, f);
    } else {
      var kid := l.Kids(f)[0];
      DeeperBelow(l, f, 0);
      assert t.children[0] == NewTree(l, kid);
      NotEmptyBusy(l, tests, kid);
      var j :| 0 <= j < |tests| && FiledBelow(l.parents, l.start, tests, j, kid);
      AboveParent(l.parents, kid, f);
      AboveTransitive(l.parents, Key(tests[j]), kid, f);
      assert FiledBelow(l.parents, l.start, tests, j, f);
    }
  }

  lemma {:induction false} NoEmptyBelow(l: Layout, g: string)
    requires l.Valid() && g in l.added && NoEmptySubtree(NewTree(l, l.start))
    ensures !NewTree(l, g).Empty() && NoEmptySubtree(NewTree(l, g))
    decreases Height(l.parents, g)
  {
    var p := l.parents[g];
    HeightOfParent(l.parents, g);
    if p != l.start { NoEmptyBelow(l, p); }
    var i :| 0 <= i < |l.Kids(p)| && l.Kids(p)[i] == g;
    assert NewTree(l, p).children[i] == NewTree(l, g);
  }

  /** The tree has no empty subtree exactly when no needed fixture is idle. */
  lemma NoEmptyIffNoIdle(l: Layout, tests: seq<Entity>)
    requires LaidOut(l, tests)
    ensures NoEmptySubtree(NewTree(l, l.start)) <==> NoIdleFixture(l.parents, l.start, tests)
  {
    if NoIdleFixture(l.parents, l.start, tests) {
      NoIdleNoEmpty(l, tests, l.start);
    } else if NoEmptySubtree(NewTree(l, l.start)) {
      forall i | 0 <= i < |tests| && IsRooted(l.parents, l.start, tests[i]) && TreeParent(tests[i]) != l.start
        ensures BusyBelow(l.parents, l.start, tests, TreeParent(tests[i]))
      {
        var f := TreeParent(tests[i]);
        RootedNeedsItself(l.parents, l.start, f);
        assert f in l.added;
        NoEmptyBelow(l, f);
        NotEmptyBusy(l, tests, f);
      }
    }
  }

  /** A fixture can be idle, so that the documented invariant fails: the only test that needs it is an external test
      to be skipped. */
  lemma SkippedExternalTestIdles()
    ensures Acyclic(map["f" := ""]) && !NoIdleFixture(map["f" := ""], "", [Entity("e", "", 1, "f", true)])
  {
    var parents: Parents, t := map["f" := ""], Entity("e", "", 1, "f", true);
    forall g ensures Ends(parents, g) {
      assert Up(parents, "", 1) == [];
      assert g != "f" ==> Up(parents, g, 1) == [];
      assert Up(parents, "f", 2) == Up(parents, "", 1);
    }
    AboveSelf(parents, "");
    AboveParent(parents, "f", "");
    var tests := [t];
    assert tests[0] == t && IsRooted(parents, "", tests[0]) && TreeParent(tests[0]) == "f";
    assert !Above(parents, "", "f") by { if Above(parents, "", "f") { NothingAboveAbsent(parents, "", "f"); } }
    assert Key(t) == "";
    assert !BusyBelow(parents, "", tests, "f");
  }

  // ----- Where tests hang -----

  ghost function CountWhere(tests: seq<Entity>, p: Entity -> bool): nat {
    if tests == [] then 0 else CountWhere(tests[..|tests| - 1], p) + (if p(tests[|tests| - 1]) then 1 else 0)
  }

  /** How many tests (external or not) called x hang at the fixture g of a tree. */
  ghost function CountAt(t: Tree, ext: bool, g: string, x: string): nat {
    (if t.fixt == g then multiset(if ext then t.externalTests else t.tests)[x] else 0) + CountAtAll(t.children, ext, g, x)
  }

  ghost function CountAtAll(ts: seq<Tree>, ext: bool, g: string, x: string): nat {
    if ts == [] then 0 else CountAt(ts[0], ext, g, x) + CountAtAll(ts[1..], ext, g, x)
  }

  ghost function OrphanTests(orphans: seq<Orphan>): seq<Entity> {
    seq(|orphans|, i requires 0 <= i < |orphans| => orphans[i].test)
  }

  /** The tests of this bundle called x whose fixture is g, from which the way up leads to the start fixture. */
  ghost function OwnAt(parents: Parents, start: string, g: string, x: string): Entity -> bool {
    (t: Entity) => t.hops == 0 && t.name == x && t.fixture == g && Above(parents, t.fixture, start)
  }

  /** The external tests called x, not to be skipped, whose start fixture is g, from which the way up leads to the start. */
  ghost function ExternalAt(parents: Parents, start: string, g: string, x: string): Entity -> bool {
    (t: Entity) => t.hops > 0 && !t.skipped && t.name == x && t.startFixture == g && Above(parents, t.startFixture, start)
  }

  /** Those that are to be skipped, or whose start fixture is "". */
  ghost function ExternalAtNone(parents: Parents, start: string, x: string): Entity -> bool {
    (t: Entity) => t.hops > 0 && t.name == x && (t.skipped || t.startFixture == "") && Above(parents, t.startFixture, start)
  }

  /** Exactly these hang there; an external test to be skipped hangs at "", if the tree has it. */
  ghost predicate HangRight(tree: Tree, parents: Parents, start: string, tests: seq<Entity>) {
    (forall g, x :: CountAt(tree, false, g, x) == CountWhere(tests, OwnAt(parents, start, g, x))) &&
    (forall g, x :: g == "" || CountAt(tree, true, g, x) == CountWhere(tests, ExternalAt(parents, start, g, x))) &&
    (forall x :: CountAt(tree, true, "", x) == if Occurs(tree, "") == 0 then 0 else CountWhere(tests, ExternalAtNone(parents, start, x)))
  }

  /** Every other test is an orphan, with the first fixture on the way up that does not exist. */
  ghost predicate OrphansRight(orphans: seq<Orphan>, parents: Parents, start: string, tests: seq<Entity>) {
    (forall t :: multiset(OrphanTests(orphans))[t] ==
      if Above(parents, if t.hops == 0 then t.fixture else t.startFixture, start) then 0 else multiset(tests)[t]) &&
    (forall i :: 0 <= i < |orphans| ==>
      LeavesAt(parents, if orphans[i].test.hops == 0 then orphans[i].test.fixture else orphans[i].test.startFixture, orphans[i].missing))
  }

  lemma {:induction false} FiledWhere(parents: Parents, start: string, tests: seq<Entity>, ext: bool, g: string, x: string, p: Entity -> bool)
    requires forall t :: p(t) <==> IsRooted(parents, start, t) && (t.hops > 0) == ext && Key(t) == g && t.name == x
    ensures FiledCount(parents, start, tests, ext, g, x) == CountWhere(tests, p)
  {
    if tests != [] { FiledWhere(parents, start, tests[..|tests| - 1], ext, g, x, p); }
  }

  lemma {:induction false} NoneWhere(tests: seq<Entity>, p: Entity -> bool)
    requires forall i :: 0 <= i < |tests| ==> !p(tests[i])
    ensures CountWhere(tests, p) == 0
  {
    if tests != [] { NoneWhere(tests[..|tests| - 1], p); }
  }

  /** What hangs at a fixture that occurs at most once is what is filed under it. */
  lemma {:induction false} CountAtIsFiled(t: Tree, parents: Parents, start: string, tests: seq<Entity>, ext: bool, g: string, x: string)
    requires HoldsFiled(t, parents, start, tests) && Occurs(t, g) <= 1
    ensures CountAt(t, ext, g, x) == if Occurs(t, g) == 0 then 0 else FiledCount(parents, start, tests, ext, g, x)
    decreases t
  {
    CountAtAllIsFiled(t, t.children, parents, start, tests, ext, g, x);
  }

  lemma {:induction false} CountAtAllIsFiled(t: Tree, ts: seq<Tree>, parents: Parents, start: string, tests: seq<Entity>, ext: bool, g: string, x: string)
    requires forall i :: 0 <= i < |ts| ==> HoldsFiled(ts[i], parents, start, tests) && ts[i] < t
    requires OccursAll(ts, g) <= 1
    ensures CountAtAll(ts, ext, g, x) == if OccursAll(ts, g) == 0 then 0 else FiledCount(parents, start, tests, ext, g, x)
    decreases t, |ts|
  {
    if ts != [] {
      CountAtIsFiled(ts[0], parents, start, tests, ext, g, x);
      CountAtAllIsFiled(t, ts[1..], parents, start, tests, ext, g, x);
    }
  }

  /** What is filed under a fixture that is not in the tree is to be skipped. */
  lemma AbsentIsSkipped(parents: Parents, start: string, tests: seq<Entity>, g: string, i: nat)
    requires g != start && !Used(parents, start, tests, g) && i < |tests| && IsRooted(parents, start, tests[i])
    ensures TreeParent(tests[i]) != g
  {
    if TreeParent(tests[i]) == g { RootedNeedsItself(parents, start, g); }
  }

  lemma HangsRight(tree: Tree, parents: Parents, start: string, tests: seq<Entity>)
    requires HoldsFiled(tree, parents, start, tests)
    requires forall g :: Occurs(tree, g) == if g == start || Used(parents, start, tests, g) then 1 else 0
    ensures HangRight(tree, parents, start, tests)
  {
    hide HoldsFiled, Occurs, Used, CountAt, FiledCount, CountWhere;
    forall g, x ensures CountAt(tree, false, g, x) ==
      CountWhere(tests, OwnAt(parents, start, g, x))
    {
      var p := OwnAt(parents, start, g, x);
      CountAtIsFiled(tree, parents, start, tests, false, g, x);
      FiledWhere(parents, start, tests, false, g, x, p);
      if Occurs(tree, g) == 0 {
        forall i | 0 <= i < |tests| && IsRooted(parents, start, tests[i]) ensures TreeParent(tests[i]) != g {
          AbsentIsSkipped(parents, start, tests, g, i);
        }
        NoneWhere(tests, p);
      }
    }
    forall g, x | g != "" ensures CountAt(tree, true, g, x) ==
      CountWhere(tests, ExternalAt(parents, start, g, x))
    {
      var p := ExternalAt(parents, start, g, x);
      CountAtIsFiled(tree, parents, start, tests, true, g, x);
      FiledWhere(parents, start, tests, true, g, x, p);
      if Occurs(tree, g) == 0 {
        forall i | 0 <= i < |tests| && IsRooted(parents, start, tests[i]) ensures TreeParent(tests[i]) != g {
          AbsentIsSkipped(parents, start, tests, g, i);
        }
        NoneWhere(tests, p);
      }
    }
    forall x ensures CountAt(tree, true, "", x) ==
      if Occurs(tree, "") == 0 then 0
      else CountWhere(tests, ExternalAtNone(parents, start, x))
    {
      var p := ExternalAtNone(parents, start, x);
      CountAtIsFiled(tree, parents, start, tests, true, "", x);
      FiledWhere(parents, start, tests, true, "", x, p);
    }
  }

  lemma OrphanTestsNext(s: seq<Orphan>, o: Orphan, t: Entity)
    ensures multiset(OrphanTests(s + [o]))[t] == multiset(OrphanTests(s))[t] + if t == o.test then 1 else 0
  {
    assert OrphanTests(s + [o]) == OrphanTests(s) + [o.test];
  }

  lemma NoOrphanTests()
    ensures OrphanTests([]) == []
  {
  }

  lemma {:induction false} OrphanedAsOften(orphans: seq<Orphan>, parents: Parents, start: string, tests: seq<Entity>, t: Entity)
    requires OrphansOf(parents, start, tests, orphans)
    ensures multiset(OrphanTests(orphans))[t] ==
      if Above(parents, if t.hops == 0 then t.fixture else t.startFixture, start) then 0 else multiset(tests)[t]
  {
    hide Above, LeavesAt, OrphanTests;
    if tests == [] {
      assert OrphanTests(orphans) == [] by { NoOrphanTests(); }
    } else {
      var init, last := tests[..|tests| - 1], tests[|tests| - 1];
      assert tests == init + [last];
      assert multiset(tests)[t] == multiset(init)[t] + if t == last then 1 else 0;
      if IsRooted(parents, start, last) {
        OrphanedAsOften(orphans, parents, start, init, t);
      } else {
        var rest := orphans[..|orphans| - 1];
        OrphanedAsOften(rest, parents, start, init, t);
        OrphanTestsNext(rest, orphans[|orphans| - 1], t);
        assert orphans == rest + [orphans[|orphans| - 1]];
      }
    }
  }

  lemma {:induction false} OrphansMiss(orphans: seq<Orphan>, parents: Parents, start: string, tests: seq<Entity>, i: nat)
    requires OrphansOf(parents, start, tests, orphans) && i < |orphans|
    ensures LeavesAt(parents, if orphans[i].test.hops == 0 then orphans[i].test.fixture else orphans[i].test.startFixture, orphans[i].missing)
  {
    hide Above, LeavesAt;
    if tests != [] {
      var init := tests[..|tests| - 1];
      if IsRooted(parents, start, tests[|tests| - 1]) {
        OrphansMiss(orphans, parents, start, init, i);
      } else if i < |orphans| - 1 {
        OrphansMiss(orphans[..|orphans| - 1], parents, start, init, i);
      }
    }
  }

  lemma OrphansAre(orphans: seq<Orphan>, parents: Parents, start: string, tests: seq<Entity>)
    requires OrphansOf(parents, start, tests, orphans)
    ensures OrphansRight(orphans, parents, start, tests)
  {
    hide Above, LeavesAt, OrphansOf;
    forall t ensures multiset(OrphanTests(orphans))[t] ==
      if Above(parents, if t.hops == 0 then t.fixture else t.startFixture, start) then 0 else multiset(tests)[t]
    { OrphanedAsOften(orphans, parents, start, tests, t); }
    forall i | 0 <= i < |orphans| ensures
      LeavesAt(parents, if orphans[i].test.hops == 0 then orphans[i].test.fixture else orphans[i].test.startFixture, orphans[i].missing)
    { OrphansMiss(orphans, parents, start, tests, i); }
  }

  /** buildFixtPlan. */
  method BuildFixtPlan(tests: seq<Entity>, parents: Parents, start: string) returns (plan: FixtPlan)
    requires Acyclic(parents)
    ensures Orphaned(parents, start, tests, plan.orphans) && OrphansInOrder(plan.orphans)
    ensures plan.tree.fixt == start && ParentsRespected(plan.tree, parents)
    ensures forall g :: Occurs(plan.tree, g) == if g == start || Used(parents, start, tests, g) then 1 else 0
    ensures HoldsFiled(plan.tree, parents, start, tests) && InOrder(plan.tree)
    ensures NoEmptySubtree(plan.tree) <==> NoIdleFixture(parents, start, tests)
    ensures HangRight(plan.tree, parents, start, tests) && OrphansRight(plan.orphans, parents, start, tests)
  {
    var b := new Builder(parents, start);
    var testsToRun, external, orphans := FileTests(tests, b);
    SortedGraph(parents, start, b.added, b.graph);
    SortedFiles(parents, start, tests, false, testsToRun);
    SortedFiles(parents, start, tests, true, external);
    var l := Layout(parents, start, b.added, SortAll(b.graph), SortAll(testsToRun), SortAll(external));
    var tree := NewTree(l, start);
    SortedOrphans(orphans);
    plan := FixtPlan(tree, SortOrphans(orphans));
    TreePromises(l, tests, b.graph, testsToRun, external);
    HangsRight(tree, parents, start, tests);
    OrphansAre(orphans, parents, start, tests);
    OrphansSorted(orphans, plan.orphans, parents, start, tests);
  }

  lemma OrphansSorted(a: seq<Orphan>, b: seq<Orphan>, parents: Parents, start: string, tests: seq<Entity>)
    requires OrphansRight(a, parents, start, tests) && multiset(a) == multiset(b)
    ensures OrphansRight(b, parents, start, tests)
  {
    TestsPermuted(a, b);
    forall i | 0 <= i < |b|
      ensures LeavesAt(parents, if b[i].test.hops == 0 then b[i].test.fixture else b[i].test.startFixture, b[i].missing)
    {
      assert b[i] in multiset(a);
      var j :| 0 <= j < |a| && a[j] == b[i];
    }
  }

  lemma WithoutOne(s: seq<Orphan>, i: nat)
    requires i < |s|
    ensures multiset(s[..i] + s[i + 1..]) == multiset(s) - multiset{s[i]}
  {
    assert s == s[..i] + [s[i]] + s[i + 1..];
  }

  lemma TestRemoved(s: seq<Orphan>, i: nat)
    requires i < |s|
    ensures multiset(OrphanTests(s)) == multiset(OrphanTests(s[..i] + s[i + 1..])) + multiset{s[i].test}
  {
    var tests := OrphanTests(s);
    assert OrphanTests(s[..i] + s[i + 1..]) == tests[..i] + tests[i + 1..];
    assert tests == tests[..i] + [s[i].test] + tests[i + 1..];
  }

  lemma {:induction false} TestsPermuted(a: seq<Orphan>, b: seq<Orphan>)
    requires multiset(a) == multiset(b)
    ensures multiset(OrphanTests(a)) == multiset(OrphanTests(b))
  {
    hide OrphanTests;
    if a == [] {
      assert |multiset(b)| == 0;
    } else {
      var last := |a| - 1;
      assert a[last] in multiset(b);
      var i :| 0 <= i < |b| && b[i] == a[last];
      WithoutOne(b, i);
      WithoutOne(a, last);
      assert a[..last] + a[last + 1..] == a[..last];
      TestsPermuted(a[..last], b[..i] + b[i + 1..]);
      TestRemoved(b, i);
      TestRemoved(a, last);
    }
  }

  lemma TreePromises(l: Layout, tests: seq<Entity>, graph: map<string, seq<string>>, testsToRun: map<string, seq<string>>,
                     external: map<string, seq<string>>)
    requires LaidOut(l, tests)
    requires l.graph == SortAll(graph) && l.tests == SortAll(testsToRun) && l.external == SortAll(external)
    ensures var tree := NewTree(l, l.start);
      ParentsRespected(tree, l.parents) &&
      (forall g :: Occurs(tree, g) == if g == l.start || Used(l.parents, l.start, tests, g) then 1 else 0) &&
      HoldsFiled(tree, l.parents, l.start, tests) && InOrder(tree) &&
      (NoEmptySubtree(tree) <==> NoIdleFixture(l.parents, l.start, tests))
  {
    NewTreeParents(l, l.start);
    NewTreeHolds(l, tests, l.start);
    NoEmptyIffNoIdle(l, tests);
    forall f ensures Sorted(At(l.tests, f)) && Sorted(At(l.external, f)) && Sorted(At(l.graph, f)) {
      SortedAt(graph, f); SortedAt(testsToRun, f); SortedAt(external, f);
      SortSorts(At(graph, f)); SortSorts(At(testsToRun, f)); SortSorts(At(external, f));
    }
    NewTreeInOrder(l, l.start);
    forall g ensures Occurs(NewTree(l, l.start), g) == if g == l.start || Used(l.parents, l.start, tests, g) then 1 else 0 {
      NewTreeOccurs(l, l.start, g);
    }
  }

  // ----- What the tree owes -----

  /** What is counted without regard to fixtures, and how often a tree owes it: the starts, runs and ends of its tests,
      and the runs of its external tests, but no reports. */
  ghost predicate Countable(f: Fact) { f.Started? || f.Ran? || f.Reported? || f.Ended? || f.RanElsewhere? }

  lemma {:induction false} PendingIsCount(t: Tree, above: seq<string>, f: Fact)
    requires Countable(f)
    ensures Pending(t, above, f) == if f.Reported? then 0 else CountIn(t, f.RanElsewhere?, f.test)
    decreases t
  {
    PendingAllIsCount(t, t.children, above + [t.fixt], f);
  }

  lemma {:induction false} PendingAllIsCount(t: Tree, ts: seq<Tree>, path: seq<string>, f: Fact)
    requires Countable(f)
    requires forall i :: 0 <= i < |ts| ==> ts[i] < t
    ensures PendingAll(ts, path, f) == if f.Reported? then 0 else CountAll(ts, f.RanElsewhere?, f.test)
    decreases t, |ts|
  {
    if ts != [] {
      PendingIsCount(ts[0], path, f);
      PendingAllIsCount(t, ts[1..], path, f);
    }
  }

  /** p leads down from the start fixture, from parent to child, to the fixture that x is filed under. */
  ghost predicate LeadsTo(parents: Parents, start: string, tests: seq<Entity>, ext: bool, p: seq<string>, x: string) {
    p != [] && p[0] == start &&
    (forall i :: 0 < i < |p| ==> p[i] in parents && parents[p[i]] == p[i - 1]) &&
    exists i :: 0 <= i < |tests| && tests[i].name == x && HangsAt(tests[i], ext, p[|p| - 1])
  }

  /** t is a test of this bundle with the fixture f, or an external test with the start fixture f, or "" if it is to be
      skipped. */
  ghost predicate HangsAt(t: Entity, ext: bool, f: string) {
    if !ext then t.hops == 0 && t.fixture == f
    else t.hops > 0 && f == if t.skipped then "" else t.startFixture
  }

  /** Every start that the tree owes, and every run of an external test, is on a stack, clean for a start, that leads to
      the fixture of the test. */
  lemma {:induction false} PendingLeads(t: Tree, above: seq<string>, parents: Parents, start: string, tests: seq<Entity>, f: Fact)
    requires HoldsFiled(t, parents, start, tests) && ParentsRespected(t, parents)
    requires (above + [t.fixt])[0] == start
    requires forall i :: 0 < i < |above + [t.fixt]| ==> (above + [t.fixt])[i] in parents && parents[(above + [t.fixt])[i]] == (above + [t.fixt])[i - 1]
    requires (f.StartedOn? || f.RanExternally?) && Pending(t, above, f) > 0
    ensures (f.StartedOn? ==> f.clean) && LeadsTo(parents, start, tests, f.RanExternally?, f.path, f.test)
    decreases t
  {
    var path := above + [t.fixt];
    if OwedTests(t.tests, path, f) + OwedExternal(t.externalTests, path, f) == 0 {
      PendingAllLeads(t, t.children, path, parents, start, tests, f);
    } else {
      FiledSomewhere(parents, start, tests, f.RanExternally?, t.fixt, f.test);
    }
  }

  lemma {:induction false} PendingAllLeads(t: Tree, ts: seq<Tree>, path: seq<string>, parents: Parents, start: string, tests: seq<Entity>, f: Fact)
    requires path != [] && path[0] == start
    requires forall i :: 0 < i < |path| ==> path[i] in parents && parents[path[i]] == path[i - 1]
    requires forall i :: 0 <= i < |ts| ==>
      ts[i] < t && HoldsFiled(ts[i], parents, start, tests) && ParentsRespected(ts[i], parents) &&
      ts[i].fixt in parents && parents[ts[i].fixt] == path[|path| - 1]
    requires (f.StartedOn? || f.RanExternally?) && PendingAll(ts, path, f) > 0
    ensures (f.StartedOn? ==> f.clean) && LeadsTo(parents, start, tests, f.RanExternally?, f.path, f.test)
    decreases t, |ts|
  {
    if Pending(ts[0], path, f) > 0 {
      PendingLeads(ts[0], path, parents, start, tests, f);
    } else {
      PendingAllLeads(t, ts[1..], path, parents, start, tests, f);
    }
  }
}

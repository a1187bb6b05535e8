/** buildPlan, plan.run and RunTests. */
module Planner {
  import opened Common
  import opened Events
  import opened FixtureGraph
  import opened FixtureTree
  import opened FixturePlan
  import opened FixtureStacks
  import opened FixtureWalk
  import opened PlanTree
  import opened ExtData
  import Retry
  import Sorting

  datatype Pre = NoPre | Pre(name: string)

  /** A test of this bundle: its precondition, and whether its dependency check reports reasons to skip
      it (or an error). */
  datatype TestInstance = TestInstance(pre: Pre, unmet: bool)

  datatype Config = Config(tests: map<string, TestInstance>, fixtures: Parents, start: string)

  datatype PrePlan = PrePlan(pre: string, tests: seq<string>)

  datatype Plan = Plan(skips: seq<string>, fixtPlan: FixtPlan, prePlans: seq<PrePlan>)

  datatype Built = Built(plan: Plan) | TestDoesNotExist

  /** Where a plan is run: whether nothing outside the framework goes wrong, whether no fixture fails to reset, and
      whether there is a parent stack, and its status. */
  datatype Setting = Setting(faultless: bool, steady: bool, combined: bool, parent: Status) {
    predicate Valid() { !combined ==> parent == Green }
  }

  // ----- Counting tests -----

  /** How many tests called x there are, in this bundle or external. */
  ghost function CountOf(tests: seq<Entity>, ext: bool, x: string): nat {
    if tests == [] then 0
    else CountOf(tests[..|tests| - 1], ext, x) + (if (tests[|tests| - 1].hops > 0) == ext && tests[|tests| - 1].name == x then 1 else 0)
  }

  ghost function OrphanCount(orphans: seq<Orphan>, ext: bool, x: string): nat {
    if orphans == [] then 0
    else
      var o := orphans[|orphans| - 1].test;
      OrphanCount(orphans[..|orphans| - 1], ext, x) + (if (o.hops > 0) == ext && o.name == x then 1 else 0)
  }

  lemma OrphanNext(s: seq<Orphan>, o: Orphan, ext: bool, x: string)
    ensures OrphanCount(s + [o], ext, x) == OrphanCount(s, ext, x) + (if (o.test.hops > 0) == ext && o.test.name == x then 1 else 0)
  {
    assert (s + [o])[..|s|] == s;
  }

  lemma {:induction false} OrphanRemoved(s: seq<Orphan>, i: nat, ext: bool, x: string)
    requires i < |s|
    ensures OrphanCount(s, ext, x) == OrphanCount(s[..i] + s[i + 1..], ext, x) + (if (s[i].test.hops > 0) == ext && s[i].test.name == x then 1 else 0)
  {
    hide OrphanCount;
    var init, o := s[..|s| - 1], s[|s| - 1];
    assert s == init + [o];
    OrphanNext(init, o, ext, x);
    if i < |init| {
      OrphanRemoved(init, i, ext, x);
      assert s[..i] + s[i + 1..] == init[..i] + init[i + 1..] + [o];
      OrphanNext(init[..i] + init[i + 1..], o, ext, x);
    } else {
      assert s[..i] + s[i + 1..] == init;
    }
  }

  lemma {:induction false} OrphansPermuted(a: seq<Orphan>, b: seq<Orphan>, ext: bool, x: string)
    requires multiset(a) == multiset(b)
    ensures OrphanCount(a, ext, x) == OrphanCount(b, ext, x)
  {
    hide OrphanCount;
    if a == [] {
      assert |multiset(b)| == 0;
    } else {
      var last := |a| - 1;
      assert a[last] in multiset(b);
      var i :| 0 <= i < |b| && b[i] == a[last];
      var rest := b[..i] + b[i + 1..];
      WithoutOne(b, i);
      WithoutOne(a, last);
      assert a[..last] + a[last + 1..] == a[..last];
      OrphansPermuted(a[..last], rest, ext, x);
      OrphanRemoved(b, i, ext, x);
      OrphanRemoved(a, last, ext, x);
    }
  }

  ghost function PreCount(plans: seq<PrePlan>, x: string): nat {
    if plans == [] then 0 else PreCount(plans[..|plans| - 1], x) + multiset(plans[|plans| - 1].tests)[x]
  }

  /** A rooted test that is filed under a fixture of the tree; only an external test to be skipped may
      be filed under a fixture, "", that the tree does not have. */
  ghost predicate Kept(parents: Parents, start: string, tests: seq<Entity>, t: Entity) {
    Key(t) == start || Used(parents, start, tests, Key(t))
  }

  lemma RootedKept(parents: Parents, start: string, tests: seq<Entity>, i: nat)
    requires i < |tests| && IsRooted(parents, start, tests[i]) && Key(tests[i]) == TreeParent(tests[i])
    ensures Kept(parents, start, tests, tests[i])
  {
    if Key(tests[i]) != start { RootedNeedsItself(parents, start, Key(tests[i])); }
  }

  /** Of the rooted tests among tests[..n] called x, the tree counts those it keeps; all others are orphans. */
  lemma {:induction false} LandedAndOrphans(tree: Tree, parents: Parents, start: string, tests: seq<Entity>, n: nat,
                                            orphans: seq<Orphan>, ext: bool, x: string)
    requires n <= |tests| && OrphansOf(parents, start, tests[..n], orphans)
    requires forall g :: Occurs(tree, g) == if g == start || Used(parents, start, tests, g) then 1 else 0
    ensures Landed(tree, parents, start, tests[..n], ext, x) + OrphanCount(orphans, ext, x) <= CountOf(tests[..n], ext, x)
    ensures Landed(tree, parents, start, tests[..n], ext, x) + OrphanCount(orphans, ext, x) == CountOf(tests[..n], ext, x) <==>
      forall i :: 0 <= i < n && (tests[i].hops > 0) == ext && tests[i].name == x && IsRooted(parents, start, tests[i]) ==>
        Kept(parents, start, tests, tests[i])
  {
    hide IsRooted, Used, Key, Occurs;
    if n > 0 {
      assert tests[..n][..n - 1] == tests[..n - 1] && tests[..n][n - 1] == tests[n - 1];
      var rest := if IsRooted(parents, start, tests[n - 1]) then orphans else orphans[..|orphans| - 1];
      LandedAndOrphans(tree, parents, start, tests, n - 1, rest, ext, x);
    }
  }

  /** The tree has the fixture "", or no rooted external test is to be skipped. */
  ghost predicate NoneLost(parents: Parents, start: string, tests: seq<Entity>) {
    start == "" || Used(parents, start, tests, "") ||
    forall i :: 0 <= i < |tests| && tests[i].hops > 0 && tests[i].skipped ==> !IsRooted(parents, start, tests[i])
  }

  /** Every external test is in the tree or among the orphans. */
  ghost predicate ExternalKept(plan: FixtPlan, tests: seq<Entity>) {
    forall x :: CountIn(plan.tree, true, x) + OrphanCount(plan.orphans, true, x) == CountOf(tests, true, x)
  }

  /** Conservation: every test of this bundle lands in the orphans or in the tree.  For external tests
      this holds exactly if the tree has the fixture "" or no rooted external test is to be skipped. */
  lemma Conservation(plan: FixtPlan, parents: Parents, start: string, tests: seq<Entity>)
    requires Orphaned(parents, start, tests, plan.orphans) && HoldsFiled(plan.tree, parents, start, tests)
    requires forall g :: Occurs(plan.tree, g) == if g == start || Used(parents, start, tests, g) then 1 else 0
    ensures forall x :: CountIn(plan.tree, false, x) + OrphanCount(plan.orphans, false, x) == CountOf(tests, false, x)
    ensures ExternalKept(plan, tests) <==> NoneLost(parents, start, tests)
  {
    assert tests[..|tests|] == tests;
    var filed :| OrphansOf(parents, start, tests, filed) && multiset(filed) == multiset(plan.orphans);
    forall ext, x ensures CountIn(plan.tree, ext, x) + OrphanCount(plan.orphans, ext, x) == CountOf(tests, ext, x) <==>
      forall i :: 0 <= i < |tests| && (tests[i].hops > 0) == ext && tests[i].name == x && IsRooted(parents, start, tests[i]) ==>
        Kept(parents, start, tests, tests[i])
    {
      CountIsLanded(plan.tree, parents, start, tests, ext, x);
      LandedAndOrphans(plan.tree, parents, start, tests, |tests|, filed, ext, x);
      OrphansPermuted(filed, plan.orphans, ext, x);
    }
    forall i | 0 <= i < |tests| && IsRooted(parents, start, tests[i]) && Key(tests[i]) == TreeParent(tests[i])
      ensures Kept(parents, start, tests, tests[i])
    {
      RootedKept(parents, start, tests, i);
    }
    if i :| 0 <= i < |tests| && tests[i].hops > 0 && tests[i].skipped && IsRooted(parents, start, tests[i]) {
      if !(start == "" || Used(parents, start, tests, "")) {
        assert !Kept(parents, start, tests, tests[i]);
        assert CountIn(plan.tree, true, tests[i].name) + OrphanCount(plan.orphans, true, tests[i].name) != CountOf(tests, true, tests[i].name);
      }
    }
  }

  /** The condition is needed: with another start fixture, a skipped external test disappears. */
  lemma SkippedExternalTestLost(plan: FixtPlan)
    requires var t := Entity("e", "", 1, "s", true);
      Orphaned(map[], "s", [t], plan.orphans) && HoldsFiled(plan.tree, map[], "s", [t]) &&
      forall g :: Occurs(plan.tree, g) == if g == "s" || Used(map[], "s", [t], g) then 1 else 0
    ensures CountIn(plan.tree, true, "e") == 0 && OrphanCount(plan.orphans, true, "e") == 0
  {
    var t := Entity("e", "", 1, "s", true);
    AboveSelf(map[], "s");
    CountIsLanded(plan.tree, map[], "s", [t], true, "e");
    assert [t][..0] == [];
    assert !Used(map[], "s", [t], "");
    var filed :| OrphansOf(map[], "s", [t], filed) && multiset(filed) == multiset(plan.orphans);
    assert IsRooted(map[], "s", t) && [t][|[t]| - 1] == t && OrphansOf(map[], "s", [t][..0], filed);
    OrphansPermuted(filed, plan.orphans, true, "e");
  }

  // ----- buildPlan -----

  /** The precondition of a test. */
  function PreName(cfg: Config, x: string): string {
    if x in cfg.tests && cfg.tests[x].pre.Pre? then cfg.tests[x].pre.name else ""
  }

  /** Tests are listed under their own precondition. */
  ghost predicate ByPre(cfg: Config, preMap: map<string, seq<string>>) {
    forall p, i :: p in preMap && 0 <= i < |preMap[p]| ==>
      preMap[p][i] in cfg.tests && cfg.tests[preMap[p][i]] == TestInstance(Pre(p), false)
  }

  /** The tests that are run on fixtures: external tests, and tests of this bundle whose dependencies are met and that have
      no precondition. */
  ghost function Ready(cfg: Config, tests: seq<Entity>): seq<Entity> {
    if tests == [] then []
    else
      var t := tests[|tests| - 1];
      Ready(cfg, tests[..|tests| - 1]) +
      (if t.hops > 0 || (t.name in cfg.tests && cfg.tests[t.name] == TestInstance(NoPre, false)) then [t] else [])
  }

  /** The three lists that buildPlan makes. */
  datatype Lists = Lists(withFixture: seq<Entity>, skips: seq<string>, preMap: map<string, seq<string>>)

  /** How often they account for x. */
  ghost function Listed(cfg: Config, l: Lists, ext: bool, x: string): nat {
    CountOf(l.withFixture, ext, x) + (if ext then 0 else multiset(l.skips)[x] + multiset(At(l.preMap, PreName(cfg, x)))[x])
  }

  /** Every test is in the list where it belongs. */
  ghost predicate ListedRight(cfg: Config, l: Lists) {
    ByPre(cfg, l.preMap) && (forall p :: p in l.preMap ==> l.preMap[p] != []) &&
    (forall i :: 0 <= i < |l.skips| ==> l.skips[i] in cfg.tests && cfg.tests[l.skips[i]].unmet) &&
    (forall i :: 0 <= i < |l.withFixture| && l.withFixture[i].hops == 0 ==>
      l.withFixture[i].name in cfg.tests && cfg.tests[l.withFixture[i].name] == TestInstance(NoPre, false))
  }

  /** One round of the loop over the tests. */
  function Put(cfg: Config, l: Lists, t: Entity): Lists
    requires t.hops == 0 ==> t.name in cfg.tests
  {
    if t.hops > 0 then l.(withFixture := l.withFixture + [t])
    else if cfg.tests[t.name].unmet then l.(skips := l.skips + [t.name])
    else if cfg.tests[t.name].pre.Pre? then l.(preMap := Append(l.preMap, cfg.tests[t.name].pre.name, t.name))
    else l.(withFixture := l.withFixture + [t])
  }

  lemma PutCounts(cfg: Config, l: Lists, t: Entity, ext: bool, x: string)
    requires t.hops == 0 ==> t.name in cfg.tests
    ensures Listed(cfg, Put(cfg, l, t), ext, x) == Listed(cfg, l, ext, x) + (if (t.hops > 0) == ext && t.name == x then 1 else 0)
  {
    CountNext(l.withFixture, t, ext, x);
    ListNext(l.skips, t.name, x);
    if t.hops == 0 && cfg.tests[t.name].pre.Pre? {
      AppendAt(l.preMap, cfg.tests[t.name].pre.name, t.name, PreName(cfg, x), x);
    }
  }

  lemma PutRight(cfg: Config, l: Lists, t: Entity)
    requires (t.hops == 0 ==> t.name in cfg.tests) && ListedRight(cfg, l)
    ensures ListedRight(cfg, Put(cfg, l, t))
  {
  }

  lemma PutReady(cfg: Config, tests: seq<Entity>, l: Lists, t: Entity)
    requires (t.hops == 0 ==> t.name in cfg.tests) && l.withFixture == Ready(cfg, tests)
    ensures Put(cfg, l, t).withFixture == Ready(cfg, tests + [t])
  {
    assert (tests + [t])[..|tests|] == tests;
  }

  lemma NothingListed(cfg: Config)
    ensures var l := Lists([], [], map[]);
      ListedRight(cfg, l) && Ready(cfg, []) == [] && forall x, ext :: CountOf([], ext, x) == Listed(cfg, l, ext, x)
  {
  }

  lemma CountNext(tests: seq<Entity>, t: Entity, ext: bool, x: string)
    ensures CountOf(tests + [t], ext, x) == CountOf(tests, ext, x) + (if (t.hops > 0) == ext && t.name == x then 1 else 0)
  {
    assert (tests + [t])[..|tests|] == tests;
  }

  lemma ListNext(s: seq<string>, y: string, x: string)
    ensures multiset(s + [y])[x] == multiset(s)[x] + (if x == y then 1 else 0)
  {
  }

  /** The loop of buildPlan over the tests. */
  method Classify(tests: seq<Entity>, cfg: Config) returns (ok: bool, l: Lists)
    ensures ok <==> forall i :: 0 <= i < |tests| && tests[i].hops == 0 ==> tests[i].name in cfg.tests
    ensures ok ==> ListedRight(cfg, l) && forall x, ext :: CountOf(tests, ext, x) == Listed(cfg, l, ext, x)
    ensures ok ==> l.withFixture == Ready(cfg, tests)
  {
    hide Listed, CountOf, ListedRight, Ready, Put;
    l := Lists([], [], map[]);
    NothingListed(cfg);
    assert tests[..0] == [];
    for i := 0 to |tests|
      invariant forall j :: 0 <= j < i && tests[j].hops == 0 ==> tests[j].name in cfg.tests
      invariant ListedRight(cfg, l) && forall x, ext :: CountOf(tests[..i], ext, x) == Listed(cfg, l, ext, x)
      invariant l.withFixture == Ready(cfg, tests[..i])
    {
      var t := tests[i];
      assert tests[..i + 1] == tests[..i] + [t];
      if t.hops == 0 && t.name !in cfg.tests {
        return false, l;
      }
      PutReady(cfg, tests[..i], l, t);
      forall x, ext ensures CountOf(tests[..i + 1], ext, x) == Listed(cfg, Put(cfg, l, t), ext, x) {
        CountNext(tests[..i], t, ext, x);
        PutCounts(cfg, l, t, ext, x);
      }
      PutRight(cfg, l, t);
      l := Put(cfg, l, t);
    }
    assert tests[..|tests|] == tests;
    ok := true;
  }

  /** A test appears only under its own precondition. */
  lemma OnlyUnderItsPre(cfg: Config, preMap: map<string, seq<string>>, p: string, x: string)
    requires ByPre(cfg, preMap) && p in preMap && p != PreName(cfg, x)
    ensures multiset(preMap[p])[x] == 0
  {
    assert x !in preMap[p];
  }

  /** How often the plans for the first i preconditions hold x. */
  ghost function UnderFirst(cfg: Config, preMap: map<string, seq<string>>, names: seq<string>, i: nat, x: string): nat
    requires i <= |names|
  {
    if PreName(cfg, x) in names[..i] then multiset(At(preMap, PreName(cfg, x)))[x] else 0
  }

  lemma UnderNext(cfg: Config, preMap: map<string, seq<string>>, names: seq<string>, i: nat, plans: seq<PrePlan>, x: string)
    requires ByPre(cfg, preMap) && i < |names| && names[i] in preMap && names[i] !in names[..i]
    requires PreCount(plans, x) == UnderFirst(cfg, preMap, names, i, x)
    ensures PreCount(plans + [PrePlan(names[i], Sorting.Sort(preMap[names[i]]))], x) == UnderFirst(cfg, preMap, names, i + 1, x)
  {
    hide Sorting.Sort;
    var after := plans + [PrePlan(names[i], Sorting.Sort(preMap[names[i]]))];
    assert after[..|after| - 1] == plans;
    assert names[..i + 1] == names[..i] + [names[i]];
    if PreName(cfg, x) != names[i] { OnlyUnderItsPre(cfg, preMap, names[i], x); }
  }

  lemma UnderAll(cfg: Config, preMap: map<string, seq<string>>, names: seq<string>, x: string)
    requires forall p :: p in names <==> p in preMap
    ensures PreCount([], x) == UnderFirst(cfg, preMap, names, 0, x)
    ensures UnderFirst(cfg, preMap, names, |names|, x) == multiset(At(preMap, PreName(cfg, x)))[x]
  {
    assert names[..|names|] == names;
  }

  /** All tests of the plan have its precondition, and their dependencies are met. */
  ghost predicate UnderPre(cfg: Config, plan: PrePlan) {
    forall x :: x in plan.tests ==> x in cfg.tests && cfg.tests[x] == TestInstance(Pre(plan.pre), false)
  }

  lemma IsUnderPre(cfg: Config, preMap: map<string, seq<string>>, plan: PrePlan)
    requires ByPre(cfg, preMap) && plan.pre in preMap && forall x :: x in plan.tests <==> x in preMap[plan.pre]
    ensures UnderPre(cfg, plan)
  {
  }

  /** The precondition plans: one per precondition, in the order of their names. */
  method BuildPrePlans(cfg: Config, preMap: map<string, seq<string>>) returns (plans: seq<PrePlan>)
    requires ByPre(cfg, preMap) && forall p :: p in preMap ==> preMap[p] != []
    ensures forall x :: PreCount(plans, x) == multiset(At(preMap, PreName(cfg, x)))[x]
    ensures forall i :: 0 <= i < |plans| ==> plans[i].tests != [] && Sorting.Sorted(plans[i].tests) && UnderPre(cfg, plans[i])
    ensures forall i, j :: 0 <= i < j < |plans| ==> plans[i].pre != plans[j].pre && Sorting.Le(plans[i].pre, plans[j].pre)
  {
    hide UnderFirst, UnderPre, PreCount, ByPre, PreName, At, Sorting.Sort;
    var keys := Sorting.Keys(preMap);
    var names := Sorting.Sort(keys);
    Sorting.SortSorts(keys);
    Sorting.SortDistinct(keys);
    plans := [];
    forall x
      ensures PreCount([], x) == UnderFirst(cfg, preMap, names, 0, x)
      ensures UnderFirst(cfg, preMap, names, |names|, x) == multiset(At(preMap, PreName(cfg, x)))[x]
    { UnderAll(cfg, preMap, names, x); }
    for i := 0 to |names|
      invariant |plans| == i && forall j :: 0 <= j < i ==> plans[j].pre == names[j]
      invariant forall x :: PreCount(plans, x) == UnderFirst(cfg, preMap, names, i, x)
      invariant forall j :: 0 <= j < |plans| ==> plans[j].tests != [] && Sorting.Sorted(plans[j].tests) && UnderPre(cfg, plans[j])
    {
      assert names[i] in names && names[i] in preMap && names[i] !in names[..i];
      Sorting.SortSorts(preMap[names[i]]);
      var plan := PrePlan(names[i], Sorting.Sort(preMap[names[i]]));
      IsUnderPre(cfg, preMap, plan);
      forall x ensures PreCount(plans + [plan], x) == UnderFirst(cfg, preMap, names, i + 1, x) {
        UnderNext(cfg, preMap, names, i, plans, x);
      }
      plans := plans + [plan];
    }
  }

  /** buildPlan: every test of this bundle lands in exactly one of the skipped tests, a precondition
      plan, the orphans or the tree. */
  method BuildPlan(tests: seq<Entity>, cfg: Config) returns (r: Built)
    requires Acyclic(cfg.fixtures)
    ensures r.TestDoesNotExist? <==> exists i :: 0 <= i < |tests| && tests[i].hops == 0 && tests[i].name !in cfg.tests
    ensures r.Built? ==> AllPlanned(tests, r.plan)
    ensures r.Built? ==> Sorting.Sorted(r.plan.skips) && PutAside(cfg, r.plan)
    ensures r.Built? ==> PlannedFrom(tests, cfg, Ready(cfg, tests), r.plan.fixtPlan) && PlacedRight(cfg, Ready(cfg, tests), r.plan.fixtPlan)
  {
    var ok, l := Classify(tests, cfg);
    if !ok {
      return TestDoesNotExist;
    }
    hide Ready, UnderPre, CountIn, CountOf, OrphanCount, PreCount, HoldsFiled, HangRight, OrphansRight, ParentsRespected,
         Used, Occurs, NoneLost, Orphaned, Sorting.Sort, NoEmptySubtree, NoIdleFixture, OrphansInOrder, InOrder, Listed,
         AllPlanned, PutAside, PlannedFrom, ExternalKept;
    var prePlans := BuildPrePlans(cfg, l.preMap);
    var fixtPlan := BuildFixtPlan(l.withFixture, cfg.fixtures, cfg.start);
    Conservation(fixtPlan, cfg.fixtures, cfg.start, l.withFixture);
    Sorting.SortSorts(l.skips);
    var plan := Plan(Sorting.Sort(l.skips), fixtPlan, prePlans);
    AllArePlanned(tests, cfg, l, plan);
    ArePutAside(cfg, l, plan);
    PlanIsFrom(tests, cfg, l, fixtPlan);
    return Built(plan);
  }

  lemma AllArePlanned(tests: seq<Entity>, cfg: Config, l: Lists, plan: Plan)
    requires forall x, ext :: CountOf(tests, ext, x) == Listed(cfg, l, ext, x)
    requires multiset(plan.skips) == multiset(l.skips) && forall x :: PreCount(plan.prePlans, x) == multiset(At(l.preMap, PreName(cfg, x)))[x]
    requires forall x :: CountIn(plan.fixtPlan.tree, false, x) + OrphanCount(plan.fixtPlan.orphans, false, x) == CountOf(l.withFixture, false, x)
    ensures AllPlanned(tests, plan)
  {
    hide CountIn, CountOf, OrphanCount, PreCount, PreName, At;
    forall x ensures CountOf(tests, false, x) ==
      multiset(plan.skips)[x] + PreCount(plan.prePlans, x) + OrphanCount(plan.fixtPlan.orphans, false, x) + CountIn(plan.fixtPlan.tree, false, x)
    {
      assert CountOf(tests, false, x) == Listed(cfg, l, false, x);
    }
  }

  lemma ArePutAside(cfg: Config, l: Lists, plan: Plan)
    requires ListedRight(cfg, l) && (forall x :: x in plan.skips <==> x in l.skips)
    requires forall x :: PreCount(plan.prePlans, x) == multiset(At(l.preMap, PreName(cfg, x)))[x]
    requires forall i :: 0 <= i < |plan.prePlans| ==> UnderPre(cfg, plan.prePlans[i])
    ensures PutAside(cfg, plan)
  {
    hide PreCount, UnderPre;
    forall i | 0 <= i < |plan.skips| ensures plan.skips[i] in cfg.tests && cfg.tests[plan.skips[i]].unmet {
      assert plan.skips[i] in l.skips;
    }
    forall x | PreCount(plan.prePlans, x) > 0 ensures x in cfg.tests && cfg.tests[x].pre.Pre? && !cfg.tests[x].unmet {
      assert x in At(l.preMap, PreName(cfg, x));
    }
  }

  lemma PlanIsFrom(tests: seq<Entity>, cfg: Config, l: Lists, plan: FixtPlan)
    requires forall x, ext :: CountOf(tests, ext, x) == Listed(cfg, l, ext, x)
    requires l.withFixture == Ready(cfg, tests)
    requires Orphaned(cfg.fixtures, cfg.start, l.withFixture, plan.orphans)
    requires plan.tree.fixt == cfg.start && ParentsRespected(plan.tree, cfg.fixtures)
    requires forall g :: Occurs(plan.tree, g) == if g == cfg.start || Used(cfg.fixtures, cfg.start, l.withFixture, g) then 1 else 0
    requires HoldsFiled(plan.tree, cfg.fixtures, cfg.start, l.withFixture)
    ensures PlannedFrom(tests, cfg, l.withFixture, plan)
  {
    hide CountOf, Orphaned, ParentsRespected, Occurs, Used, HoldsFiled, HangRight, OrphansRight, Ready;
    forall x ensures CountOf(tests, true, x) == CountOf(l.withFixture, true, x) { assert CountOf(tests, true, x) == Listed(cfg, l, true, x); }
  }

  /** Every test of this bundle is in exactly one place of the plan. */
  ghost predicate AllPlanned(tests: seq<Entity>, plan: Plan) {
    forall x :: CountOf(tests, false, x) ==
      multiset(plan.skips)[x] + PreCount(plan.prePlans, x) + OrphanCount(plan.fixtPlan.orphans, false, x) + CountIn(plan.fixtPlan.tree, false, x)
  }

  /** Skipped tests have unmet dependencies; tests in precondition plans have their precondition, and no unmet
      dependencies. */
  ghost predicate PutAside(cfg: Config, plan: Plan) {
    (forall i :: 0 <= i < |plan.skips| ==> plan.skips[i] in cfg.tests && cfg.tests[plan.skips[i]].unmet) &&
    (forall i :: 0 <= i < |plan.prePlans| ==> UnderPre(cfg, plan.prePlans[i])) &&
    (forall x :: PreCount(plan.prePlans, x) > 0 ==> x in cfg.tests && cfg.tests[x].pre.Pre? && !cfg.tests[x].unmet)
  }

  /** The fixture plan is the one for the tests that are ready to run on fixtures. */
  ghost predicate PlannedFrom(tests: seq<Entity>, cfg: Config, ready: seq<Entity>, plan: FixtPlan) {
    ready == Ready(cfg, tests) && (forall x :: CountOf(tests, true, x) == CountOf(ready, true, x)) &&
    Orphaned(cfg.fixtures, cfg.start, ready, plan.orphans) &&
    plan.tree.fixt == cfg.start && ParentsRespected(plan.tree, cfg.fixtures) &&
    (forall g :: Occurs(plan.tree, g) == if g == cfg.start || Used(cfg.fixtures, cfg.start, ready, g) then 1 else 0) &&
    HoldsFiled(plan.tree, cfg.fixtures, cfg.start, ready)
  }

  /** In it every test is where its own fields put it. */
  ghost predicate PlacedRight(cfg: Config, ready: seq<Entity>, plan: FixtPlan) {
    HangRight(plan.tree, cfg.fixtures, cfg.start, ready) && OrphansRight(plan.orphans, cfg.fixtures, cfg.start, ready)
  }

  // ----- Running a plan -----

  function OrphanNames(orphans: seq<Orphan>): seq<string> {
    seq(|orphans|, i requires 0 <= i < |orphans| => orphans[i].test.name)
  }

  ghost function PreOwed(plans: seq<PrePlan>, f: Fact): nat {
    if plans == [] then 0 else PreOwed(plans[..|plans| - 1], f) + Owes(true, plans[|plans| - 1].tests, f)
  }

  /** How often tests on no fixtures owe f: each owes one start, one end, and to be run or reported once. */
  ghost function Owes(run: bool, tests: seq<string>, f: Fact): nat {
    if run then OwedTests(tests, [], f)
    else if f.Reported? then multiset(tests)[f.test]
    else if f.Ran? then 0
    else OwedTests(tests, [], f)
  }

  /** How often running a plan owes f.  Skipped tests, orphans and tests with preconditions are on no fixtures; of these
      only the tests with preconditions run. */
  ghost function PlanOwes(plan: Plan, f: Fact): nat {
    Owes(false, plan.skips, f) + FixtOwes(plan.fixtPlan, f) + PreOwed(plan.prePlans, f)
  }

  /** Over a stretch of a run, what is owed gets delivered, exactly or (after an error) at most. */
  ghost predicate Pays(exact: bool, run: bool, e0: seq<Event>, e1: seq<Event>, tests: seq<string>) {
    forall f: Fact ::
      if exact then Tally(e1, f) == Tally(e0, f) + Owes(run, tests, f)
      else OfExternal(f) || Tally(e1, f) <= Tally(e0, f) + Owes(run, tests, f)
  }

  lemma OwedAppend(run: bool, tests: seq<string>, t: string, f: Fact)
    ensures Owes(run, tests + [t], f) == Owes(run, tests, f) + Owes(run, [t], f)
  {
  }

  /** Reports a test that does not run. */
  method ReportOne(t: string, out: Output)
    requires out.Valid() && !Failed(out.events)
    modifies out
    ensures out.Valid() && !Failed(out.events) && SameFixtures(old(out.events), out.events)
    ensures out.events == old(out.events) + [Start(t, [], true), NotRun(t), End(t)]
    ensures forall f :: Tally(out.events, f) == Tally(old(out.events), f) + Owes(false, [t], f)
  {
    hide Lawful, SetUpNow, LastParent, StuckOn, Failed, HasParent, Fresh, ParentFresh, Tally, Delivers, Owes;
    out.Emit(Start(t, [], true));
    out.Emit(NotRun(t));
    out.Emit(End(t));
    forall f ensures Delivers(Start(t, [], true), f) + Delivers(NotRun(t), f) + Delivers(End(t), f) == Owes(false, [t], f) {
      ReportOwed(t, f);
    }
  }

  lemma ReportOwed(t: string, f: Fact)
    ensures Delivers(Start(t, [], true), f) + Delivers(NotRun(t), f) + Delivers(End(t), f) == Owes(false, [t], f)
  {
    TestOwed(t, [], f);
  }

  /** What is reported for tests that do not run. */
  function Reports(tests: seq<string>): seq<Event> {
    if tests == [] then []
    else
      var t := tests[|tests| - 1];
      Reports(tests[..|tests| - 1]) + [Start(t, [], true), NotRun(t), End(t)]
  }

  lemma ReportsNext(tests: seq<string>, i: nat)
    requires i < |tests|
    ensures Reports(tests[..i + 1]) == Reports(tests[..i]) + [Start(tests[i], [], true), NotRun(tests[i]), End(tests[i])]
  {
    assert tests[..i + 1][..i] == tests[..i];
  }

  /** Reports tests that do not run. */
  method Report(tests: seq<string>, out: Output)
    requires out.Valid() && !Failed(out.events)
    modifies out
    ensures out.Valid() && !Failed(out.events) && SameFixtures(old(out.events), out.events)
    ensures Pays(true, false, old(out.events), out.events, tests) && out.events == old(out.events) + Reports(tests)
  {
    hide Output.Valid, SetUpNow, LastParent, StuckOn, Failed, HasParent, Fresh, ParentFresh, Tally, Owes, Pays;
    PaidNothing(false, out.events, tests);
    for i := 0 to |tests|
      invariant out.Valid() && !Failed(out.events) && SameFixtures(old(out.events), out.events)
      invariant Pays(true, false, old(out.events), out.events, tests[..i]) && out.events == old(out.events) + Reports(tests[..i])
    {
      ghost var e1 := out.events;
      ReportOne(tests[i], out);
      PaidNext(true, false, old(out.events), e1, out.events, tests, i);
      ReportsNext(tests, i);
    }
    assert tests[..|tests|] == tests;
  }

  /** The same fixtures are set up, and the parent stack has reported no other status. */
  ghost predicate SameStatus(e0: seq<Event>, e1: seq<Event>) { SetUpNow(e1) == SetUpNow(e0) && LastParent(e1) == LastParent(e0) }

  /** Since e0 no test got the errors of a fixture. */
  ghost predicate NoErrors(e0: seq<Event>, e1: seq<Event>) {
    e0 <= e1 && forall i :: |e0| <= i < |e1| ==> !e1[i].FixtureErrors?
  }

  /** prePlan.run: the tests run on an empty stack, which is reset between them; so their functions are called. */
  method RunPrePlan(plan: PrePlan, setting: Setting, out: Output, dl: Downloader) returns (err: Err)
    requires dl.Valid() && dl.held == [] && out.Valid() && SetUpNow(out.events) == [] && !Failed(out.events)
    modifies out, dl, dl.m, dl.m.disk
    ensures out.Valid() && (err == NoErr ==> SameStatus(old(out.events), out.events)) && (err == Abandoned <==> Failed(out.events))
    ensures dl.Valid() && dl.held == [] && err != Bug && (err == Abandoned ==> !setting.faultless)
    ensures Pays(err == NoErr, true, old(out.events), out.events, plan.tests)
    ensures err == NoErr ==> NoErrors(old(out.events), out.events)
  {
    hide Pays, OwedTests, RanOn, NoErrors, Tally, Total, Output.Valid, SetUpNow, LastParent, StuckOn, Failed, HasParent,
         Fresh, ParentFresh, Live, Disciplined, Worsened, Done;
    PaidNothing(true, out.events, plan.tests);
    NoErrorsYet(out.events);
    ghost var e0 := out.events;
    out.EmitQuietly(NewStack(false));
    PaysInexact(true, e0, e0, plan.tests, 0);
    PaysQuietly(true, e0, e0, out.events, plan.tests, 0);
    NoErrorsQuietly(e0, e0, NewStack(false));
    var stack := new FixtureStack(setting.faultless, setting.steady, false, Green, out);
    assert Live([]) == [] by { NoneLive(); }
    err := NoErr;
    for i := 0 to |plan.tests|
      invariant SameStatus(old(out.events), out.events)
      invariant stack.Ready() && stack.out == out && stack.slots == [] && !stack.combined && stack.faultless == setting.faultless && fresh(stack) && err == NoErr
      invariant i < |plan.tests| ==> !stack.dirty
      invariant dl.Valid() && dl.held == []
      invariant Pays(true, true, old(out.events), out.events, plan.tests[..i]) && NoErrors(old(out.events), out.events)
    {
      ghost var e1, clean := out.events, !stack.dirty;
      assert NamesOf(stack.slots) == [] == EntitiesOf(dl.held);
      err := RunTest(plan.tests[i], stack, out, dl);
      PaidNext(err == NoErr, true, old(out.events), e1, out.events, plan.tests, i);
      if err != NoErr {
        return;
      }
      NoErrorsNext(plan.tests[i], old(out.events), e1, out.events, clean);
      if i < |plan.tests| - 1 {
        ghost var e2 := out.events;
        PaysInexact(true, old(out.events), e2, plan.tests, i + 1);
        err := stack.Reset();
        if err == NoErr { NothingToReset(e2, out.events); }
        PaysQuietly(true, old(out.events), e2, out.events, plan.tests, i + 1);
        if err != NoErr {
          return;
        }
      }
    }
    assert plan.tests[..|plan.tests|] == plan.tests;
  }

  lemma NothingToReset(e0: seq<Event>, e1: seq<Event>)
    requires CalledResets([], [], e0, e1)
    ensures e1 == e0
  {
    assert Resets(NamesOf([])) == [];
  }

  lemma NoErrorsQuietly(e0: seq<Event>, e1: seq<Event>, e: Event)
    requires NoErrors(e0, e1) && !e.FixtureErrors?
    ensures NoErrors(e0, e1 + [e])
  {
  }

  lemma NoErrorsYet(e: seq<Event>)
    ensures NoErrors(e, e)
  {
  }

  /** On a stack without fixtures, and without a parent stack, the function of a test is called. */
  lemma NoErrorsNext(t: string, e0: seq<Event>, e1: seq<Event>, e2: seq<Event>, clean: bool)
    requires NoErrors(e0, e1) && |e2| > 0 && e2[|e2| - 1] == End(t)
    requires RanOn(Green, t, e1 + [Start(t, [], clean)], e2[..|e2| - 1])
    ensures NoErrors(e0, e2)
  {
    var init := e2[..|e2| - 1];
    assert e2 == init + [End(t)];
    assert e1 <= e2;
    forall i | |e0| <= i < |e2| ensures !e2[i].FixtureErrors? {
      if i < |e1| { assert e2[i] == e1[i]; } else if i < |init| { assert e2[i] == init[i]; }
    }
  }

  lemma NoneLive()
    ensures Live([]) == []
  {
  }

  /** Events that deliver nothing make no difference. */
  lemma PaysQuietly(run: bool, e0: seq<Event>, e1: seq<Event>, e2: seq<Event>, tests: seq<string>, i: nat)
    requires i <= |tests| && Pays(true, run, e0, e1, tests[..i]) && Pays(false, run, e0, e1, tests) && SameTally(e1, e2)
    ensures Pays(true, run, e0, e2, tests[..i]) && Pays(false, run, e0, e2, tests)
  {
  }

  lemma PaidNothing(run: bool, e: seq<Event>, tests: seq<string>)
    ensures Pays(true, run, e, e, tests[..0])
  {
    assert tests[..0] == [];
  }

  lemma PaidNext(exact: bool, run: bool, e0: seq<Event>, e1: seq<Event>, e2: seq<Event>, tests: seq<string>, i: nat)
    requires i < |tests| && Pays(true, run, e0, e1, tests[..i])
    requires forall f :: if exact then Tally(e2, f) == Tally(e1, f) + Owes(run, [tests[i]], f)
                         else Tally(e2, f) <= Tally(e1, f) + Owes(run, [tests[i]], f)
    ensures exact ==> Pays(true, run, e0, e2, tests[..i + 1])
    ensures Pays(false, run, e0, e2, tests)
  {
    var t := tests[i];
    assert tests[..i + 1] == tests[..i] + [t];
    forall f ensures Owes(run, tests[..i + 1], f) == Owes(run, tests[..i], f) + Owes(run, [t], f) <= Owes(run, tests, f) {
      OwedAppend(run, tests[..i], t, f);
      assert tests == tests[..i + 1] + tests[i + 1..];
    }
  }

  lemma PaysInexact(run: bool, e0: seq<Event>, e1: seq<Event>, tests: seq<string>, i: nat)
    requires i <= |tests| && Pays(true, run, e0, e1, tests[..i])
    ensures Pays(false, run, e0, e1, tests)
  {
    assert tests == tests[..i] + tests[i..];
  }

  /** How often a plan's orphans and tree owe f. */
  ghost function FixtOwes(plan: FixtPlan, f: Fact): nat { Owes(false, OrphanNames(plan.orphans), f) + Pending(plan.tree, [], f) }

  /** What is owed gets delivered, exactly or (after an error) at most. */
  ghost predicate FixtDelivered(exact: bool, e0: seq<Event>, e1: seq<Event>, plan: FixtPlan) {
    forall f: Fact ::
      if exact then Tally(e1, f) == Tally(e0, f) + FixtOwes(plan, f)
      else OfExternal(f) || Tally(e1, f) <= Tally(e0, f) + FixtOwes(plan, f)
  }

  ghost predicate Delivered(exact: bool, e0: seq<Event>, e1: seq<Event>, plan: Plan) {
    forall f: Fact ::
      if exact then Tally(e1, f) == Tally(e0, f) + PlanOwes(plan, f)
      else OfExternal(f) || Tally(e1, f) <= Tally(e0, f) + PlanOwes(plan, f)
  }

  /** fixtPlan.run: reports the orphans and walks a copy of the tree on a new stack.  Only a parent stack that ends up
      yellow can keep it from finishing.  Without an error, every fixture that was set up has been torn down. */
  method RunFixtPlan(plan: FixtPlan, setting: Setting, out: Output, dl: Downloader, ext: OtherBundle) returns (err: Err, finished: bool)
    requires setting.Valid() && (HasExternal(plan.tree) ==> setting.combined)
    requires dl.Valid() && dl.held == [] && ext.Honest() && out.Valid() && SetUpNow(out.events) == [] && !Failed(out.events)
    modifies out, dl, dl.m, dl.m.disk
    ensures dl.Valid() && dl.held == [] && err != Bug && (setting.faultless && ext.Lively() ==> err == NoErr)
    ensures out.Valid() && (err == NoErr ==> SetUpNow(out.events) == []) && (err == Abandoned <==> Failed(out.events))
    ensures err == NoErr ==> finished || UnfinishedAt(setting, LastParent(out.events))
    ensures FixtDelivered(err == NoErr && finished, old(out.events), out.events, plan)
  {
    hide *;
    Report(OrphanNames(plan.orphans), out);
    ghost var e1 := out.events;
    SameSetUp(old(out.events), e1);
    ghost var left;
    err, finished, left := WalkTree(plan.tree, setting, out, dl, ext);
    WalkDelivered(err == NoErr, plan, old(out.events), e1, out.events, left);
  }

  lemma SameSetUp(e0: seq<Event>, e1: seq<Event>)
    requires SameFixtures(e0, e1)
    ensures SetUpNow(e1) == SetUpNow(e0) && LastParent(e1) == LastParent(e0)
  {
  }

  /** Walks a copy of the tree on a new stack, for which the parent stack, if there is one, reports its status; left is
      what is left of the copy. */
  method WalkTree(t: Tree, setting: Setting, out: Output, dl: Downloader, ext: OtherBundle)
    returns (err: Err, finished: bool, ghost left: Tree)
    requires setting.Valid() && (HasExternal(t) ==> setting.combined)
    requires dl.Valid() && dl.held == [] && ext.Honest() && out.Valid() && SetUpNow(out.events) == [] && !Failed(out.events)
    modifies out, dl, dl.m, dl.m.disk
    ensures dl.Valid() && dl.held == [] && err != Bug && (setting.faultless && ext.Lively() ==> err == NoErr)
    ensures out.Valid() && (err == NoErr ==> SetUpNow(out.events) == []) && (err == Abandoned <==> Failed(out.events))
    ensures (err == NoErr ==> finished || UnfinishedAt(setting, LastParent(out.events))) && finished == left.Empty()
    ensures Conserves(err == NoErr, t, old(out.events), left, out.events, [])
  {
    hide Conserves, Total, Done, Output.Valid, SetUpNow, LastParent, StuckOn, Failed, HasParent, Fresh, ParentFresh, Tally,
         Disciplined, Worsened, LeftOver, Size, NoEmptySubtree, HasExternal, EndsRight, OtherBundle.Silent,
         OtherBundle.Lively, OtherBundle.Honest, FixtureStack.Valid, FixtureStack.Rested;
    var tree := Clone(t);
    left := t;
    ConservesNothing(t, out.events, []);
    ghost var e1 := out.events;
    var stack;
    err, stack := MakeStack(setting, out);
    ghost var e2 := out.events;
    ConservesQuietly(false, t, e1, t, e1, e2, []);
    if err != NoErr {
      finished := t.Empty();
      return;
    }
    assert NamesOf(stack.slots) == [] == EntitiesOf(dl.held);
    err := RunFixtTree(tree, stack, out, dl, ext);
    ConservesSince(err == NoErr, t, e1, e2, tree.View(), out.events, []);
    finished, left := tree.Empty(), tree.View();
    StackFacts(stack);
    if err == NoErr { StatusAtEnd(setting, stack); }
  }

  /** A new stack; the parent stack, if there is one, reports its status. */
  method MakeStack(setting: Setting, out: Output) returns (err: Err, stack: FixtureStack?)
    requires setting.Valid() && out.Valid() && SetUpNow(out.events) == [] && !Failed(out.events)
    modifies out
    ensures out.Valid() && SetUpNow(out.events) == [] && SameTally(old(out.events), out.events)
    ensures err != Bug && (err == Abandoned <==> Failed(out.events)) && (err == Abandoned ==> !setting.faultless)
    ensures err == NoErr ==>
      stack != null && fresh(stack) && stack.out == out && stack.Valid() && stack.Rested() && stack.slots == [] && !stack.dirty &&
      stack.faultless == setting.faultless && stack.steady == setting.steady && stack.combined == setting.combined &&
      stack.parent == setting.parent
  {
    hide Output.Valid, SetUpNow, LastParent, StuckOn, Failed, HasParent, Fresh, ParentFresh, Tally, Disciplined, Live;
    assert Live([]) == [] by { NoneLive(); }
    out.EmitQuietly(NewStack(setting.combined));
    if setting.combined {
      var unreachable := Fault(setting.faultless);
      if unreachable {
        out.EmitQuietly(Failure);
        return Abandoned, null;
      }
      out.EmitQuietly(Parent(setting.parent));
    }
    err := NoErr;
    stack := new FixtureStack(setting.faultless, setting.steady, setting.combined, setting.parent, out);
  }

  /** Only a parent stack that ends up yellow can keep a run from finishing; it does so only if it was yellow or a
      fixture has failed to reset. */
  ghost predicate UnfinishedAt(setting: Setting, lastParent: Status) {
    setting.combined && lastParent == Yellow && (setting.steady ==> setting.parent == Yellow)
  }

  lemma StatusAtEnd(setting: Setting, stack: FixtureStack)
    requires setting.Valid() && stack.Valid() && stack.combined == setting.combined
    requires Worsened(setting.steady, Fixtures(setting.parent, []), stack.Fixts())
    ensures stack.slots == [] && (stack.Status() == Yellow ==> UnfinishedAt(setting, LastParent(stack.out.events)))
  {
    WorsenedFacts(setting.steady, Fixtures(setting.parent, []), stack.Fixts());
    assert |NamesOf(stack.slots)| == 0;
  }

  lemma WalkDelivered(exact: bool, plan: FixtPlan, e0: seq<Event>, e1: seq<Event>, e2: seq<Event>, left: Tree)
    requires Pays(true, false, e0, e1, OrphanNames(plan.orphans)) && Conserves(exact, plan.tree, e1, left, e2, [])
    ensures FixtDelivered(exact && left.Empty(), e0, e2, plan)
  {
    forall f: Fact
      ensures Tally(e1, f) == Tally(e0, f) + Owes(false, OrphanNames(plan.orphans), f)
      ensures left.Empty() ==> Pending(left, [], f) == 0
    {
    }
  }

  /** plan.run. */
  method RunPlan(plan: Plan, setting: Setting, out: Output, dl: Downloader, ext: OtherBundle)
    returns (err: Err, finished: bool)
    requires setting.Valid() && (HasExternal(plan.fixtPlan.tree) ==> setting.combined)
    requires dl.Valid() && dl.held == [] && ext.Honest() && out.Valid() && SetUpNow(out.events) == [] && !Failed(out.events)
    modifies out, dl, dl.m, dl.m.disk
    ensures dl.Valid() && dl.held == [] && err != Bug && (setting.faultless && ext.Lively() ==> err == NoErr)
    ensures out.Valid() && (err == NoErr ==> SetUpNow(out.events) == []) && (err == Abandoned <==> Failed(out.events))
    ensures err == NoErr ==> finished || UnfinishedAt(setting, LastParent(out.events))
    ensures Delivered(err == NoErr && finished, old(out.events), out.events, plan)
  {
    hide Delivered, PlanOwes, Pays, Owes, NoErrors, Tally, Pending, Total, Output.Valid, SetUpNow, LastParent, StuckOn,
         Failed, HasParent, Fresh, ParentFresh, HasExternal, UnfinishedAt, OtherBundle.Honest, OtherBundle.Lively, Done;
    ghost var e0 := out.events;
    Report(plan.skips, out);
    ghost var e1 := out.events;
    err, finished := RunFixtPlan(plan.fixtPlan, setting, out, dl, ext);
    ghost var e2 := out.events;
    ghost var exact := err == NoErr && finished;
    DeliveredFirst(exact, plan, e0, e1, e2);
    if err != NoErr {
      return;
    }
    for i := 0 to |plan.prePlans|
      invariant dl.Valid() && dl.held == [] && err == NoErr && out.Valid() && !Failed(out.events) && SameStatus(e2, out.events)
      invariant Delivered(exact, e0, out.events, plan.(prePlans := plan.prePlans[..i]))
    {
      ghost var e3 := out.events;
      err := RunPrePlan(plan.prePlans[i], setting, out, dl);
      DeliveredNext(exact, err == NoErr, plan, e0, e3, out.events, i);
      if err != NoErr {
        return;
      }
    }
    assert plan.prePlans[..|plan.prePlans|] == plan.prePlans;
  }

  lemma DeliveredFirst(exact: bool, plan: Plan, e0: seq<Event>, e1: seq<Event>, e2: seq<Event>)
    requires Pays(true, false, e0, e1, plan.skips)
    requires FixtDelivered(exact, e1, e2, plan.fixtPlan)
    ensures Delivered(exact, e0, e2, plan.(prePlans := []))
    ensures Delivered(false, e0, e2, plan)
  {
  }

  lemma {:induction false} PreOwedPrefix(plans: seq<PrePlan>, i: nat, f: Fact)
    requires i <= |plans|
    ensures PreOwed(plans[..i], f) <= PreOwed(plans, f)
  {
    if i < |plans| {
      PreOwedPrefix(plans[..|plans| - 1], i, f);
      assert plans[..|plans| - 1][..i] == plans[..i];
    } else {
      assert plans[..i] == plans;
    }
  }

  lemma DeliveredNext(exact: bool, exactPre: bool, plan: Plan, e0: seq<Event>, e1: seq<Event>, e2: seq<Event>, i: nat)
    requires i < |plan.prePlans| && Delivered(exact, e0, e1, plan.(prePlans := plan.prePlans[..i]))
    requires Pays(exactPre, true, e1, e2, plan.prePlans[i].tests)
    ensures exactPre ==> Delivered(exact, e0, e2, plan.(prePlans := plan.prePlans[..i + 1]))
    ensures Delivered(false, e0, e2, plan)
  {
    forall f: Fact
      ensures PreOwed(plan.prePlans[..i + 1], f) == PreOwed(plan.prePlans[..i], f) + Owes(true, plan.prePlans[i].tests, f)
      ensures PreOwed(plan.prePlans[..i + 1], f) <= PreOwed(plan.prePlans, f)
    {
      assert plan.prePlans[..i + 1][..i] == plan.prePlans[..i];
      PreOwedPrefix(plan.prePlans, i + 1, f);
    }
  }

  // ----- RunTests -----

  lemma {:induction false} OrphansOwe(orphans: seq<Orphan>, x: string)
    ensures multiset(OrphanNames(orphans))[x] == OrphanCount(orphans, false, x) + OrphanCount(orphans, true, x)
  {
    if orphans != [] {
      var init := orphans[..|orphans| - 1];
      OrphansOwe(init, x);
      assert OrphanNames(orphans) == OrphanNames(init) + [orphans[|orphans| - 1].test.name];
    }
  }

  lemma {:induction false} PreOwes(plans: seq<PrePlan>, f: Fact)
    ensures f.Started? || f.Ran? || f.Ended? || (f.StartedOn? && f.path == [] && f.clean) ==> PreOwed(plans, f) == PreCount(plans, f.test)
    ensures f.Reported? || OfExternal(f) || (f.StartedOn? && (f.path != [] || !f.clean)) ==> PreOwed(plans, f) == 0
  {
    if plans != [] { PreOwes(plans[..|plans| - 1], f); }
  }

  /** A plan owes each of its tests one start and one end; it owes skipped tests and orphans one report and no run, and all
      others one run and no report; it owes the external tests in its tree one run elsewhere. */
  lemma PlanOwesTests(plan: Plan, f: Fact)
    requires Countable(f)
    ensures var reported := multiset(plan.skips)[f.test] + OrphanCount(plan.fixtPlan.orphans, false, f.test) + OrphanCount(plan.fixtPlan.orphans, true, f.test);
      var run := CountIn(plan.fixtPlan.tree, false, f.test) + PreCount(plan.prePlans, f.test);
      PlanOwes(plan, f) ==
        if f.RanElsewhere? then CountIn(plan.fixtPlan.tree, true, f.test)
        else if f.Reported? then reported
        else if f.Ran? then run
        else reported + run
  {
    OrphansOwe(plan.fixtPlan.orphans, f.test);
    PendingIsCount(plan.fixtPlan.tree, [], f);
    PreOwes(plan.prePlans, f);
  }

  /** A test that is started on no fixtures: its dependencies are not met, it has a precondition, or it is an orphan. */
  ghost predicate OffFixtures(cfg: Config, plan: Plan, x: string) {
    (x in cfg.tests && (cfg.tests[x].unmet || cfg.tests[x].pre.Pre?)) || x in OrphanNames(plan.fixtPlan.orphans)
  }

  /** A plan owes starts only on clean stacks, and with no fixtures only to tests without; all other starts, and all runs of
      external tests, are on the way down to the fixture of the test. */
  lemma PlanOwesPaths(plan: Plan, tests: seq<Entity>, cfg: Config, ready: seq<Entity>, f: Fact)
    requires PlannedFrom(tests, cfg, ready, plan.fixtPlan) && PutAside(cfg, plan)
    requires (f.StartedOn? || f.RanExternally?) && PlanOwes(plan, f) > 0
    ensures f.StartedOn? ==> f.clean
    ensures if f.StartedOn? && f.path == [] then OffFixtures(cfg, plan, f.test)
            else LeadsTo(cfg.fixtures, cfg.start, ready, f.RanExternally?, f.path, f.test)
  {
    PreOwes(plan.prePlans, f);
    if Pending(plan.fixtPlan.tree, [], f) > 0 {
      assert [] + [plan.fixtPlan.tree.fixt] == [cfg.start];
      PendingLeads(plan.fixtPlan.tree, [], cfg.fixtures, cfg.start, ready, f);
    } else if f.StartedOn? {
      assert f.test in multiset(plan.skips) ==> f.test in plan.skips;
    }
  }

  /** What a run that finishes without error has delivered: every test of this bundle is started and ended exactly once, and
      besides them only external tests that are orphans; in between exactly the tests with unmet dependencies and the
      orphans are reported, and every other test is run exactly once; every other external test has run elsewhere
      exactly once, unless it is lost, which happens exactly if NoneLost does not hold. */
  ghost predicate Complete(tests: seq<Entity>, cfg: Config, ready: seq<Entity>, plan: Plan, events: seq<Event>) {
    CompleteHere(tests, cfg, plan, events) &&
    (CompleteElsewhere(tests, plan, events) <==> NoneLost(cfg.fixtures, cfg.start, ready)) &&
    (forall x, p :: Tally(events, RanExternally(x, p)) > 0 ==> LeadsTo(cfg.fixtures, cfg.start, ready, true, p, x))
  }

  /** RunTests.  A run without error that its parent stack does not cut short is complete, and it has torn down every
      fixture that it set up.  Every history, even of a run that fails, is lawful, and every start in it is on a clean
      stack with the fixtures from the start fixture down to the test's own, so test functions are called only with exactly
      these set up.
      A run in which nothing outside the framework goes wrong is without error; if moreover no fixture fails to
      reset, and the parent stack is not yellow, it is complete. */
  method RunTests(tests: seq<Entity>, cfg: Config, setting: Setting, out: Output, dl: Downloader, ext: OtherBundle)
    returns (built: Built, err: Err, finished: bool)
    requires Acyclic(cfg.fixtures) && setting.Valid() && ext.Honest()
    requires (exists i :: 0 <= i < |tests| && tests[i].hops > 0) ==> setting.combined
    requires dl.Valid() && dl.held == [] && out.events == []
    modifies out, dl, dl.m, dl.m.disk
    ensures err == Bug <==> exists i :: 0 <= i < |tests| && tests[i].hops == 0 && tests[i].name !in cfg.tests
    ensures err == Abandoned ==> !setting.faultless || !ext.Lively()
    ensures err == NoErr ==> built.Built? && (finished || UnfinishedAt(setting, LastParent(out.events)))
    ensures out.Valid() && (err == NoErr ==> SetUpNow(out.events) == []) && (err == Abandoned <==> Failed(out.events))
    ensures built.Built? ==>
      PlannedFrom(tests, cfg, Ready(cfg, tests), built.plan.fixtPlan) && PutAside(cfg, built.plan) &&
      PlacedRight(cfg, Ready(cfg, tests), built.plan.fixtPlan) &&
      OnGoodStacks(cfg, Ready(cfg, tests), built.plan, out.events) &&
      (err == NoErr && finished ==> Complete(tests, cfg, Ready(cfg, tests), built.plan, out.events))
  {
    hide Ready, PlannedFrom, PlacedRight, OnGoodStacks, Complete, PutAside, AllPlanned, Delivered, UnfinishedAt, HasExternal;
    finished := false;
    built := BuildPlan(tests, cfg);
    if built.TestDoesNotExist? {
      err := Bug;
      return;
    }
    ghost var ready := Ready(cfg, tests);
    NoExternalTests(tests, cfg, ready, built.plan.fixtPlan);
    err, finished := RunPlan(built.plan, setting, out, dl, ext);
    GoodStacks(err == NoErr && finished, tests, cfg, ready, built.plan, out.events);
    if err == NoErr && finished { Completed(tests, cfg, ready, built.plan, out.events); }
  }

  ghost predicate OnGoodStacks(cfg: Config, ready: seq<Entity>, plan: Plan, events: seq<Event>) {
    forall x, p, clean :: Tally(events, StartedOn(x, p, clean)) > 0 ==>
      clean && if p == [] then OffFixtures(cfg, plan, x) else LeadsTo(cfg.fixtures, cfg.start, ready, false, p, x)
  }

  /** So a test function is called only right after the start of its test, on a clean stack, when exactly the fixtures
      from the start fixture down to its own are set up, or none for a test that runs on no fixtures; and each of them has
      been set up or reset, and the parent stack has reported that it is green, since any test of this or another bundle
      has used them. */
  lemma BodyOnItsFixtures(cfg: Config, ready: seq<Entity>, plan: Plan, events: seq<Event>, i: nat)
    requires Lawful(events) && OnGoodStacks(cfg, ready, plan, events) && i < |events| && events[i].Body?
    ensures i > 0 && events[i - 1] == Start(events[i].test, SetUpNow(events[..i]), true) && AllFresh(events[..i])
    ensures var x, p := events[i].test, SetUpNow(events[..i]);
      if p == [] then OffFixtures(cfg, plan, x) else LeadsTo(cfg.fixtures, cfg.start, ready, false, p, x)
  {
    LawfulAt(events, i);
    var e := events[i - 1];
    assert events[..i][|events[..i]| - 1] == e;
    TallyAt(events, i - 1, StartedOn(e.test, e.path, e.clean));
  }

  /** And a test gets the errors of a fixture only right after its start, on a clean stack, when the SetUp of the first
      fixture on the way down to its own that is not set up has just failed, or the parent stack is red. */
  lemma ErrorsOfItsFixtures(cfg: Config, ready: seq<Entity>, plan: Plan, events: seq<Event>, i: nat)
    requires Lawful(events) && OnGoodStacks(cfg, ready, plan, events) && i < |events| && events[i].FixtureErrors?
    ensures i > 0 && events[i - 1].Start? && events[i - 1].test == events[i].test && events[i - 1].clean
    ensures var x, p := events[i].test, events[i - 1].path;
      (StuckOn(events[..i], p) || (HasParent(events[..i]) && LastParent(events[..i]) == Red)) &&
      if p == [] then OffFixtures(cfg, plan, x) else LeadsTo(cfg.fixtures, cfg.start, ready, false, p, x)
  {
    LawfulAt(events, i);
    var e := events[i - 1];
    assert events[..i][|events[..i]| - 1] == e;
    TallyAt(events, i - 1, StartedOn(e.test, e.path, e.clean));
  }

  /** So a complete run in which no SetUp fails and the parent stack is never red has called the function of every test of
      this bundle exactly once, except those with unmet dependencies and orphans. */
  lemma AllCalled(tests: seq<Entity>, cfg: Config, plan: Plan, events: seq<Event>, x: string)
    requires CompleteHere(tests, cfg, plan, events) && Lawful(events)
    requires Parent(Red) !in events && forall g :: Fixture(SetUp(g, false)) !in events
    ensures multiset(events)[Body(x)] == ToRun(tests, cfg, plan, x)
  {
    RunsAreCalls(events, x);
  }

  lemma GoodStacks(exact: bool, tests: seq<Entity>, cfg: Config, ready: seq<Entity>, plan: Plan, events: seq<Event>)
    requires PlannedFrom(tests, cfg, ready, plan.fixtPlan) && PutAside(cfg, plan) && Delivered(exact, [], events, plan)
    ensures OnGoodStacks(cfg, ready, plan, events)
  {
    hide LeadsTo, OffFixtures, PlannedFrom, PutAside, PlanOwes;
    forall x, p, clean | Tally(events, StartedOn(x, p, clean)) > 0
      ensures clean && if p == [] then OffFixtures(cfg, plan, x) else LeadsTo(cfg.fixtures, cfg.start, ready, false, p, x)
    {
      PlanOwesPaths(plan, tests, cfg, ready, StartedOn(x, p, clean));
    }
  }

  lemma Completed(tests: seq<Entity>, cfg: Config, ready: seq<Entity>, plan: Plan, events: seq<Event>)
    requires PlannedFrom(tests, cfg, ready, plan.fixtPlan) && PutAside(cfg, plan) && Delivered(true, [], events, plan)
    requires AllPlanned(tests, plan)
    ensures Complete(tests, cfg, ready, plan, events)
  {
    hide *;
    CompletedHere(tests, cfg, ready, plan, events);
    CompletedElsewhere(tests, cfg, ready, plan, events);
    forall x, p | Tally(events, RanExternally(x, p)) > 0 ensures LeadsTo(cfg.fixtures, cfg.start, ready, true, p, x) {
      DeliveredIsOwed(plan, events, RanExternally(x, p));
      PlanOwesPaths(plan, tests, cfg, ready, RanExternally(x, p));
    }
    CompleteParts(tests, cfg, ready, plan, events);
  }

  lemma DeliveredIsOwed(plan: Plan, events: seq<Event>, f: Fact)
    requires Delivered(true, [], events, plan)
    ensures Tally(events, f) == PlanOwes(plan, f)
  {
    hide PlanOwes;
    assert Tally([], f) == 0;
  }

  /** How many tests of this bundle named x are to be run: none if its dependencies are unmet, otherwise all but orphans. */
  ghost function ToRun(tests: seq<Entity>, cfg: Config, plan: Plan, x: string): int {
    if x in cfg.tests && cfg.tests[x].unmet then 0 else CountOf(tests, false, x) - OrphanCount(plan.fixtPlan.orphans, false, x)
  }

  ghost predicate CompleteHere(tests: seq<Entity>, cfg: Config, plan: Plan, events: seq<Event>) {
    forall x ::
      var all := CountOf(tests, false, x) + OrphanCount(plan.fixtPlan.orphans, true, x);
      Tally(events, Started(x)) == Tally(events, Ended(x)) == all &&
      Tally(events, Ran(x)) == ToRun(tests, cfg, plan, x) &&
      Tally(events, Reported(x)) == all - ToRun(tests, cfg, plan, x)
  }

  ghost predicate CompleteElsewhere(tests: seq<Entity>, plan: Plan, events: seq<Event>) {
    forall x :: Tally(events, RanElsewhere(x)) + OrphanCount(plan.fixtPlan.orphans, true, x) == CountOf(tests, true, x)
  }

  lemma CompletedHere(tests: seq<Entity>, cfg: Config, ready: seq<Entity>, plan: Plan, events: seq<Event>)
    requires Delivered(true, [], events, plan) && AllPlanned(tests, plan) && PutAside(cfg, plan)
    requires PlannedFrom(tests, cfg, ready, plan.fixtPlan)
    ensures CompleteHere(tests, cfg, plan, events)
  {
    hide PlanOwes, Delivered, Tally, PlannedFrom, PutAside;
    forall x
      ensures
        var all := CountOf(tests, false, x) + OrphanCount(plan.fixtPlan.orphans, true, x);
        Tally(events, Started(x)) == Tally(events, Ended(x)) == all &&
        Tally(events, Ran(x)) == ToRun(tests, cfg, plan, x) &&
        Tally(events, Reported(x)) == all - ToRun(tests, cfg, plan, x)
    {
      forall f | f in [Started(x), Ended(x), Ran(x), Reported(x)] ensures Tally(events, f) == PlanOwes(plan, f) {
        DeliveredIsOwed(plan, events, f);
      }
      PlanOwesTests(plan, Started(x));
      PlanOwesTests(plan, Ended(x));
      PlanOwesTests(plan, Ran(x));
      PlanOwesTests(plan, Reported(x));
      SkippedIfUnmet(tests, cfg, ready, plan, x);
    }
  }

  /** Exactly the tests with unmet dependencies are skipped. */
  lemma SkippedIfUnmet(tests: seq<Entity>, cfg: Config, ready: seq<Entity>, plan: Plan, x: string)
    requires AllPlanned(tests, plan) && PutAside(cfg, plan)
    requires PlannedFrom(tests, cfg, ready, plan.fixtPlan)
    ensures multiset(plan.skips)[x] == if x in cfg.tests && cfg.tests[x].unmet then CountOf(tests, false, x) else 0
  {
    hide CountIn, CountOf, OrphanCount, PreCount, Ready, UnderPre, HoldsFiled, HangRight, OrphansRight, ParentsRespected,
         Used, Occurs, Orphaned, NoneLost, ExternalKept;
    if x in cfg.tests && cfg.tests[x].unmet {
      Conservation(plan.fixtPlan, cfg.fixtures, cfg.start, ready);
      ReadyIsMet(cfg, tests, x);
    } else {
      assert x in multiset(plan.skips) ==> x in plan.skips;
    }
  }

  lemma {:induction false} ReadyIsMet(cfg: Config, tests: seq<Entity>, x: string)
    requires x in cfg.tests && cfg.tests[x].unmet
    ensures CountOf(Ready(cfg, tests), false, x) == 0
  {
    if tests != [] {
      var init := tests[..|tests| - 1];
      ReadyIsMet(cfg, init, x);
      CountNext(Ready(cfg, init), tests[|tests| - 1], false, x);
      assert Ready(cfg, init) + [] == Ready(cfg, init);
    }
  }

  lemma CompletedElsewhere(tests: seq<Entity>, cfg: Config, ready: seq<Entity>, plan: Plan, events: seq<Event>)
    requires PlannedFrom(tests, cfg, ready, plan.fixtPlan) && Delivered(true, [], events, plan)
    ensures CompleteElsewhere(tests, plan, events) <==> NoneLost(cfg.fixtures, cfg.start, ready)
  {
    hide PlanOwes, Delivered, Tally, HoldsFiled, HangRight, OrphansRight, ParentsRespected, NoneLost, Used, Occurs, CountIn,
         CountOf, OrphanCount, Orphaned;
    forall x ensures Tally(events, RanElsewhere(x)) == CountIn(plan.fixtPlan.tree, true, x) {
      DeliveredIsOwed(plan, events, RanElsewhere(x));
      PlanOwesTests(plan, RanElsewhere(x));
    }
    Conservation(plan.fixtPlan, cfg.fixtures, cfg.start, ready);
    forall x ensures CountOf(tests, true, x) == CountOf(ready, true, x) { }
    if CompleteElsewhere(tests, plan, events) {
      forall x ensures CountIn(plan.fixtPlan.tree, true, x) + OrphanCount(plan.fixtPlan.orphans, true, x) == CountOf(ready, true, x) {
        assert CountOf(tests, true, x) == CountOf(ready, true, x);
      }
    }
    if ExternalKept(plan.fixtPlan, ready) {
      forall x ensures Tally(events, RanElsewhere(x)) + OrphanCount(plan.fixtPlan.orphans, true, x) == CountOf(tests, true, x) {
        assert CountOf(tests, true, x) == CountOf(ready, true, x);
      }
    }
  }

  lemma CompleteParts(tests: seq<Entity>, cfg: Config, ready: seq<Entity>, plan: Plan, events: seq<Event>)
    requires CompleteHere(tests, cfg, plan, events) && (CompleteElsewhere(tests, plan, events) <==> NoneLost(cfg.fixtures, cfg.start, ready))
    requires forall x, p :: Tally(events, RanExternally(x, p)) > 0 ==> LeadsTo(cfg.fixtures, cfg.start, ready, true, p, x)
    ensures Complete(tests, cfg, ready, plan, events)
  {
  }

  /** Without external tests the tree has none. */
  lemma NoExternalTests(tests: seq<Entity>, cfg: Config, ready: seq<Entity>, plan: FixtPlan)
    requires PlannedFrom(tests, cfg, ready, plan)
    ensures HasExternal(plan.tree) ==> exists i :: 0 <= i < |tests| && tests[i].hops > 0
  {
    if HasExternal(plan.tree) {
      var x := ExternalFound(plan.tree);
      CountIsLanded(plan.tree, cfg.fixtures, cfg.start, ready, true, x);
      assert ready[..|ready|] == ready;
      var filed :| OrphansOf(cfg.fixtures, cfg.start, ready, filed) && multiset(filed) == multiset(plan.orphans);
      LandedAndOrphans(plan.tree, cfg.fixtures, cfg.start, ready, |ready|, filed, true, x);
      CountFound(tests, x);
    }
  }

  lemma {:induction false} ExternalFound(t: Tree) returns (x: string)
    requires HasExternal(t)
    ensures CountIn(t, true, x) > 0
  {
    if t.externalTests != [] {
      x := t.externalTests[0];
      assert x in multiset(t.externalTests);
    } else {
      var i :| 0 <= i < |t.children| && HasExternal(t.children[i]);
      x := ExternalFound(t.children[i]);
      CountInAll(t.children, i, x);
    }
  }

  lemma {:induction false} CountInAll(ts: seq<Tree>, i: nat, x: string)
    requires i < |ts|
    ensures CountAll(ts, true, x) >= CountIn(ts[i], true, x)
  {
    if i > 0 { CountInAll(ts[1..], i - 1, x); }
  }

  lemma {:induction false} CountFound(tests: seq<Entity>, x: string)
    requires CountOf(tests, true, x) > 0
    ensures exists i :: 0 <= i < |tests| && tests[i].hops > 0
  {
    var last := |tests| - 1;
    if tests[last].hops == 0 {
      CountFound(tests[..last], x);
      var i :| 0 <= i < last && tests[..last][i].hops > 0;
      assert tests[i].hops > 0;
    }
  }
}

/** Fixture trees as values, and the account of what they owe and what the events of a run have delivered. */
module FixtureTree {
  import opened Events

  /** A fixture tree: the original tree of a plan, which is never modified. */
  datatype Tree = Tree(fixt: string, tests: seq<string>, externalTests: seq<string>, children: seq<Tree>) {
    predicate Empty() { tests == [] && externalTests == [] && children == [] }
  }

  /** An empty tree must not appear as a subtree of another tree. */
  ghost predicate NoEmptySubtree(t: Tree) {
    forall i :: 0 <= i < |t.children| ==> !t.children[i].Empty() && NoEmptySubtree(t.children[i])
  }

  ghost predicate HasExternal(t: Tree) {
    t.externalTests != [] || exists i :: 0 <= i < |t.children| && HasExternal(t.children[i])
  }

  /** What the walk of a tree does last: it runs tests of this bundle, it runs external tests, or, if the last child is
      an empty tree, it does nothing after a reset. */
  datatype Ending = ByTests | ByExternalTests | ByNothing

  ghost function EndingOf(t: Tree): Ending {
    if t.children == [] then (if t.externalTests == [] then ByTests else ByExternalTests)
    else
      var last := t.children[|t.children| - 1];
      if last.Empty() then ByNothing else EndingOf(last)
  }

  /** Pending tests plus nodes. */
  ghost function Size(t: Tree): nat { 1 + |t.tests| + |t.externalTests| + Sizes(t.children) }

  ghost function Sizes(ts: seq<Tree>): nat { if ts == [] then 0 else Size(ts[0]) + Sizes(ts[1..]) }

  /** How often tests with the fixtures path owe f: each owes one start on a clean stack holding
      exactly these fixtures, to be run once, and one end. */
  ghost function OwedTests(tests: seq<string>, path: seq<string>, f: Fact): nat {
    match f
    case StartedOn(t, p, clean) => if p == path && clean then multiset(tests)[t] else 0
    case Started(t) => multiset(tests)[t]
    case Ended(t) => multiset(tests)[t]
    case Ran(t) => multiset(tests)[t]
    case Reported(_) => 0
    case RanExternally(_, _) => 0
    case RanElsewhere(_) => 0
  }

  ghost function RanOnce(t: string, f: Fact): nat { if f == Ran(t) then 1 else 0 }

  lemma TestOwed(t: string, path: seq<string>, f: Fact)
    ensures Delivers(Start(t, path, true), f) + RanOnce(t, f) + Delivers(End(t), f) == OwedTests([t], path, f)
  {
  }

  ghost function OwedExternal(tests: seq<string>, path: seq<string>, f: Fact): nat {
    if f.RanElsewhere? || (f.RanExternally? && f.path == path) then multiset(tests)[f.test] else 0
  }

  /** How often a tree owes f when its root goes on top of the fixtures above. */
  ghost function Pending(t: Tree, above: seq<string>, f: Fact): nat {
    var path := above + [t.fixt];
    OwedTests(t.tests, path, f) + OwedExternal(t.externalTests, path, f) + PendingAll(t.children, path, f)
  }

  ghost function PendingAll(ts: seq<Tree>, path: seq<string>, f: Fact): nat {
    if ts == [] then 0 else Pending(ts[0], path, f) + PendingAll(ts[1..], path, f)
  }

  /** With no empty subtree, the constant-time emptiness test says exactly that nothing is owed. */
  lemma {:induction false} EmptyMeansNothingOwed(t: Tree, above: seq<string>)
    requires NoEmptySubtree(t)
    ensures t.Empty() <==> forall f :: Pending(t, above, f) == 0
  {
    var path := above + [t.fixt];
    if !t.Empty() {
      var f: Fact;
      if t.tests != [] {
        f := Started(t.tests[0]);
        assert t.tests[0] in multiset(t.tests);
      } else if t.externalTests != [] {
        f := RanExternally(t.externalTests[0], path);
        assert t.externalTests[0] in multiset(t.externalTests);
      } else {
        EmptyMeansNothingOwed(t.children[0], path);
        f :| Pending(t.children[0], path, f) > 0;
      }
      assert Pending(t, above, f) > 0;
    }
  }

  /** Over a stretch of a run (exact) nothing is lost and nothing is delivered twice.  For a stretch
      that ends in an error (not exact) still no test of this bundle starts or ends twice. */
  ghost predicate Conserves(exact: bool, t0: Tree, e0: seq<Event>, t1: Tree, e1: seq<Event>, above: seq<string>) {
    forall f: Fact ::
      if exact then Tally(e1, f) + Pending(t1, above, f) == Tally(e0, f) + Pending(t0, above, f)
      else OfExternal(f) || Tally(e1, f) + Pending(t1, above, f) <= Tally(e0, f) + Pending(t0, above, f)
  }

  /** A tree left over from another: it has no more tests and nodes, and keeps the documented invariant and, as long as
      something is left, the way it ends. */
  ghost predicate LeftOver(t0: Tree, t1: Tree) {
    t1.fixt == t0.fixt && Size(t1) <= Size(t0) && (t0.Empty() ==> t1.Empty()) &&
    (!t1.Empty() ==> EndingOf(t1) == EndingOf(t0)) &&
    (NoEmptySubtree(t0) ==> NoEmptySubtree(t1)) &&
    (HasExternal(t1) ==> HasExternal(t0))
  }

  lemma ConservesNothing(t: Tree, e: seq<Event>, above: seq<string>)
    ensures Conserves(true, t, e, t, e, above) && Conserves(false, t, e, t, e, above)
    ensures LeftOver(t, t)
  {
  }

  /** Events that deliver nothing make no difference. */
  lemma ConservesQuietly(exact: bool, t0: Tree, e0: seq<Event>, t1: Tree, e1: seq<Event>, e2: seq<Event>, above: seq<string>)
    requires Conserves(exact, t0, e0, t1, e1, above) && SameTally(e1, e2)
    ensures Conserves(exact, t0, e0, t1, e2, above)
  {
  }

  lemma ConservesSince(exact: bool, t0: Tree, e0: seq<Event>, e1: seq<Event>, t1: Tree, e2: seq<Event>, above: seq<string>)
    requires Conserves(exact, t0, e1, t1, e2, above) && SameTally(e0, e1)
    ensures Conserves(exact, t0, e0, t1, e2, above)
  {
  }

  lemma ConservesInexact(t0: Tree, e0: seq<Event>, t1: Tree, e1: seq<Event>, above: seq<string>)
    requires Conserves(true, t0, e0, t1, e1, above)
    ensures Conserves(false, t0, e0, t1, e1, above)
  {
  }

  lemma ConservesTransitive(exact: bool, t0: Tree, e0: seq<Event>, t1: Tree, e1: seq<Event>, t2: Tree, e2: seq<Event>,
                            above: seq<string>)
    requires Conserves(true, t0, e0, t1, e1, above) && Conserves(exact, t1, e1, t2, e2, above)
    ensures Conserves(exact, t0, e0, t2, e2, above)
  {
  }

  lemma ChildHasExternal(t: Tree)
    requires t.children != []
    ensures HasExternal(t.children[0]) ==> HasExternal(t)
  {
  }

  lemma LeftOverExternal(t0: Tree, t1: Tree)
    requires LeftOver(t0, t1)
    ensures HasExternal(t1) ==> HasExternal(t0)
  {
  }

  lemma LeftOverTransitive(t0: Tree, t1: Tree, t2: Tree)
    requires LeftOver(t0, t1) && LeftOver(t1, t2)
    ensures LeftOver(t0, t2)
  {
    hide Size, NoEmptySubtree, HasExternal, EndingOf;
  }

  /** How a walk leaves the stack when it has emptied a tree: dirty, if it ends with tests of this bundle, and, if it ends
      with external tests, as their last run left it. */
  ghost predicate EndsRight(t0: Tree, t1: Tree, dirty: bool, externalDirty: bool) {
    !t0.Empty() && t1.Empty() ==>
      (dirty <==> EndingOf(t0) == ByTests || (EndingOf(t0) == ByExternalTests && externalDirty))
  }

  lemma EndsRightSince(t0: Tree, t1: Tree, t2: Tree, dirty: bool, externalDirty: bool)
    requires LeftOver(t0, t1) && !t1.Empty() && EndsRight(t1, t2, dirty, externalDirty)
    ensures EndsRight(t0, t2, dirty, externalDirty)
  {
  }

  lemma EndsRightNotEmpty(t0: Tree, t1: Tree, dirty: bool, externalDirty: bool)
    requires !t1.Empty() || t0.Empty()
    ensures EndsRight(t0, t1, dirty, externalDirty)
  {
  }

  /** The first child is the last one if removing it empties the tree. */
  lemma EndsRightInChild(t0: Tree, c: Tree, t1: Tree, dirty: bool, externalDirty: bool)
    requires t0.children != [] && t1 == t0.(children := t0.children[1..])
    requires EndsRight(t0.children[0], c, dirty, externalDirty) && c.Empty() && (t0.children[0].Empty() ==> !dirty)
    ensures EndsRight(t0, t1, dirty, externalDirty)
  {
    if t1.Empty() { assert |t0.children| == 1; }
  }

  /** A tree without children ends with its own tests. */
  lemma EndsRightAtLeaf(t0: Tree, t1: Tree, dirty: bool, externalDirty: bool)
    requires t0.children == [] && (t1.Empty() ==> if t0.externalTests == [] then dirty else dirty == externalDirty)
    ensures EndsRight(t0, t1, dirty, externalDirty)
  {
  }

  /** A test taken off the list of a tree's own tests pays what it owes, or, on an error, at most that. */
  lemma TookTest(exact: bool, t0: Tree, e0: seq<Event>, t1: Tree, e1: seq<Event>, above: seq<string>)
    requires t0.tests != [] && t1 == t0.(tests := t0.tests[1..])
    requires forall f :: var owed := OwedTests([t0.tests[0]], above + [t0.fixt], f);
      if exact then Tally(e1, f) == Tally(e0, f) + owed else Tally(e1, f) <= Tally(e0, f) + owed
    ensures Conserves(exact, t0, e0, t1, e1, above)
    ensures LeftOver(t0, t1) && Size(t1) < Size(t0)
  {
    assert t0.tests == [t0.tests[0]] + t1.tests;
  }

  /** External tests pay as they start. */
  lemma TookExternal(t0: Tree, e0: seq<Event>, t1: Tree, e1: seq<Event>, started: seq<string>, above: seq<string>)
    requires t1 == t0.(externalTests := t1.externalTests) && t0.tests == []
    requires multiset(started) + multiset(t1.externalTests) == multiset(t0.externalTests)
    requires |t1.externalTests| < |t0.externalTests|
    requires forall f :: Tally(e1, f) == Tally(e0, f) + OwedExternal(started, above + [t0.fixt], f)
    ensures Conserves(true, t0, e0, t1, e1, above) && LeftOver(t0, t1) && Size(t1) < Size(t0)
  {
  }

  /** What happens in the first child happens in the tree. */
  lemma TookChild(exact: bool, t0: Tree, e0: seq<Event>, c: Tree, t1: Tree, e1: seq<Event>, above: seq<string>)
    requires t0.children != [] && t1 == t0.(children := [c] + t0.children[1..])
    requires Conserves(exact, t0.children[0], e0, c, e1, above + [t0.fixt])
    ensures Conserves(exact, t0, e0, t1, e1, above)
  {
    var path := above + [t0.fixt];
    forall f ensures PendingAll(t1.children, path, f) == Pending(c, path, f) + PendingAll(t0.children[1..], path, f) {
      assert t1.children[1..] == t0.children[1..];
    }
  }

  lemma ChildLeftOver(t0: Tree, c: Tree, t1: Tree)
    requires t0.children != [] && t1 == t0.(children := [c] + t0.children[1..])
    requires LeftOver(t0.children[0], c)
    ensures c.Empty() || LeftOver(t0, t1)
    ensures Size(t1) == Size(t0) - Size(t0.children[0]) + Size(c)
  {
    hide HasExternal, NoEmptySubtree;
    assert t1.children[1..] == t0.children[1..];
    assert Sizes(t1.children) == Size(c) + Sizes(t0.children[1..]);
    assert Sizes(t0.children) == Size(t0.children[0]) + Sizes(t0.children[1..]);
    assert |t0.children| > 1 ==> t1.children[|t1.children| - 1] == t0.children[|t0.children| - 1];
    if HasExternal(t1) { ChildExternal(t0, c, t1); }
    if NoEmptySubtree(t0) && !c.Empty() { ChildNotEmpty(t0, c, t1); }
  }

  lemma ChildExternal(t0: Tree, c: Tree, t1: Tree)
    requires t0.children != [] && t1 == t0.(children := [c] + t0.children[1..])
    requires HasExternal(c) ==> HasExternal(t0.children[0])
    requires HasExternal(t1)
    ensures HasExternal(t0)
  {
    if t1.externalTests == [] {
      var i :| 0 <= i < |t1.children| && HasExternal(t1.children[i]);
      assert i > 0 ==> t1.children[i] == t0.children[i];
      assert HasExternal(t0.children[i]);
    }
  }

  lemma ChildNotEmpty(t0: Tree, c: Tree, t1: Tree)
    requires t0.children != [] && t1 == t0.(children := [c] + t0.children[1..])
    requires NoEmptySubtree(t0.children[0]) ==> NoEmptySubtree(c)
    requires NoEmptySubtree(t0) && !c.Empty()
    ensures NoEmptySubtree(t1)
  {
    forall i | 0 <= i < |t1.children| ensures !t1.children[i].Empty() && NoEmptySubtree(t1.children[i]) {
      assert i > 0 ==> t1.children[i] == t0.children[i];
      assert !t0.children[i].Empty() && NoEmptySubtree(t0.children[i]);
    }
  }

  /** A first child that has become empty can be removed. */
  lemma DroppedChild(t0: Tree, e0: seq<Event>, c: Tree, t1: Tree, e1: seq<Event>, above: seq<string>)
    requires t0.children != [] && t1 == t0.(children := t0.children[1..]) && c.Empty()
    requires t0.tests == [] && t0.externalTests == []
    requires Conserves(true, t0.children[0], e0, c, e1, above + [t0.fixt])
    ensures Conserves(true, t0, e0, t1, e1, above)
    ensures LeftOver(t0, t1) && Size(t1) < Size(t0)
  {
    var path := above + [t0.fixt];
    forall f ensures Tally(e1, f) + Pending(t1, above, f) == Tally(e0, f) + Pending(t0, above, f) {
      assert Pending(c, path, f) == 0;
      assert PendingAll(t0.children, path, f) == Pending(t0.children[0], path, f) + PendingAll(t1.children, path, f);
    }
    assert Sizes(t0.children) == Size(t0.children[0]) + Sizes(t1.children);
    assert forall i :: 0 <= i < |t1.children| ==> t1.children[i] == t0.children[i + 1];
  }
}

/** Running the tests of a fixture tree: runFixtTree and runTest. */
module FixtureWalk {
  import opened Common
  import opened Events
  import opened FixtureStacks
  import opened FixtureTree
  import opened ExtData
  import Retry

  /** Another bundle: what its attempts to run tests report, how often failed tests are retried, and which requests
      it sends to the stack during a run of the given tests. */
  datatype OtherBundle = OtherBundle(once: Retry.Bundle, retryn: int, requests: seq<string> -> seq<Request>) {
    ghost predicate Honest() { Retry.Honest(once) }

    ghost predicate Lively() { Retry.Lively(once) }

    /** It never marks the stack dirty, as for tests that it only reports as skipped. */
    ghost predicate Silent() { forall names :: SetDirtyTo(true) !in requests(names) }
  }

  ghost predicate StaysSilent(ext: OtherBundle, before: bool, after: bool) { ext.Silent() && !before ==> !after }

  /** Passes on the events of external tests. */
  method EmitExternal(tests: seq<string>, path: seq<string>, out: Output)
    requires out.Valid() && !Failed(out.events)
    modifies out
    ensures out.Valid() && !Failed(out.events) && SameFixtures(old(out.events), out.events)
    ensures forall f :: Tally(out.events, f) == Tally(old(out.events), f) + OwedExternal(tests, path, f)
  {
    hide Output.Valid, SetUpNow, LastParent, StuckOn, Failed, HasParent, Fresh, ParentFresh, FixtureStack.Rested;
    for i := 0 to |tests|
      invariant out.Valid() && !Failed(out.events) && SameFixtures(old(out.events), out.events)
      invariant forall f :: Tally(out.events, f) == Tally(old(out.events), f) + OwedExternal(tests[..i], path, f)
    {
      assert tests[..i + 1] == tests[..i] + [tests[i]];
      out.Emit(External(tests[i], path));
    }
    assert tests[..|tests|] == tests;
  }

  /** A fixture tree whose finished tests are removed as they run. */
  class FixtTree {
    const fixt: string
    var tests: seq<string>
    var externalTests: seq<string>
    var children: seq<FixtTree>
    /** This node and all nodes below it, removed ones included. */
    ghost const repr: set<FixtTree>

    ghost predicate Valid()
      reads this, repr
      decreases repr
    {
      this in repr &&
      (forall c :: c in children ==> c in repr && c.repr < repr && this !in c.repr && c.Valid()) &&
      (forall i, j :: 0 <= i < j < |children| ==> children[i].repr !! children[j].repr)
    }

    ghost function View(): (t: Tree)
      requires Valid()
      reads this, repr
      ensures t.fixt == fixt && t.tests == tests && t.externalTests == externalTests
      ensures |t.children| == |children|
      ensures forall i :: 0 <= i < |children| ==> t.children[i] == children[i].View()
      decreases repr
    {
      Tree(fixt, tests, externalTests,
           seq(|children|, i requires 0 <= i < |children| && Valid() reads this, repr => children[i].View()))
    }

    predicate Empty() reads this { tests == [] && externalTests == [] && children == [] }

    constructor (fixt: string, tests: seq<string>, externalTests: seq<string>, children: seq<FixtTree>, ghost views: seq<Tree>)
      requires forall c :: c in children ==> c.Valid()
      requires forall i, j :: 0 <= i < j < |children| ==> children[i].repr !! children[j].repr
      requires |views| == |children| && forall i :: 0 <= i < |children| ==> children[i].View() == views[i]
      ensures Valid()
      ensures repr == {this} + set c, o | c in children && o in c.repr :: o
      ensures View() == Tree(fixt, tests, externalTests, views)
    {
      this.fixt, this.tests, this.externalTests, this.children := fixt, tests, externalTests, children;
      this.repr := {this} + set c, o | c in children && o in c.repr :: o;
      new;
      forall c | c in children ensures c in repr && c.repr < repr && this !in c.repr && c.Valid() {
        assert c.repr <= repr && this in repr && this !in c.repr;
      }
      assert Valid();
      forall i | 0 <= i < |children| ensures children[i].View() == views[i] { assert children[i] in children; }
      assert View().children == views;
    }

    /** A change below the first child leaves the tree valid, and shows in the view of that child only. */
    twostate lemma FirstChildChanged()
      requires old(Valid()) && children == old(children) && children != []
      requires unchanged(repr - children[0].repr) && children[0].Valid()
      ensures Valid()
      ensures View() == old(View()).(children := [children[0].View()] + old(View()).children[1..])
    {
      hide View;
      StillValid();
      hide Valid;
      ghost var kids := old(View()).children;
      forall i | 0 <= i < |children| ensures View().children[i] == ([children[0].View()] + kids[1..])[i] {
        if i > 0 { OtherChildKept(i); }
      }
      assert View().children == [children[0].View()] + kids[1..];
    }

    twostate lemma StillValid()
      requires old(Valid()) && children == old(children) && children != []
      requires unchanged(repr - children[0].repr) && children[0].Valid()
      ensures Valid()
    {
      hide View;
      assert children[0] in children && this !in children[0].repr;
      forall c | c in children ensures c in repr && c.repr < repr && this !in c.repr && c.Valid() {
        var i :| 0 <= i < |children| && children[i] == c;
        if i > 0 { OtherChildKept(i); }
      }
    }

    twostate lemma OtherChildKept(i: nat)
      requires old(Valid()) && children == old(children) && 0 < i < |children|
      requires unchanged(repr - children[0].repr)
      ensures children[i].Valid() && children[i].View() == old(children[i].View())
    {
      assert children[i] in old(children) && children[i].repr !! children[0].repr;
      assert unchanged(children[i].repr);
    }

    method SetTests(ts: seq<string>)
      requires Valid()
      modifies this`tests
      ensures Valid() && tests == ts && View() == old(View()).(tests := ts)
    {
      tests := ts;
      assert View().children == old(View()).children;
    }

    method SetExternalTests(ts: seq<string>)
      requires Valid()
      modifies this`externalTests
      ensures Valid() && externalTests == ts && View() == old(View()).(externalTests := ts)
    {
      externalTests := ts;
      assert View().children == old(View()).children;
    }

    method DropFirstChild()
      requires Valid() && children != []
      modifies this`children
      ensures Valid() && children == old(children)[1..]
      ensures View() == old(View()).(children := old(View()).children[1..])
    {
      ghost var cs := children;
      children := children[1..];
      forall i | 0 <= i < |children| ensures children[i] == cs[i + 1] && children[i].View() == old(children[i + 1].View()) {
        assert cs[i + 1] in cs;
      }
      assert View().children == old(View()).children[1..];
    }
  }

  /** Clone: the mutable copy of a plan's tree that a run consumes. */
  method Clone(t: Tree) returns (c: FixtTree)
    ensures c.Valid() && fresh(c.repr) && c.View() == t
    decreases t
  {
    var children := CloneAll(t, 0);
    c := new FixtTree(t.fixt, t.tests, t.externalTests, children, t.children);
  }

  method CloneAll(t: Tree, from: nat) returns (cs: seq<FixtTree>)
    requires from <= |t.children|
    ensures |cs| == |t.children| - from
    ensures forall j :: 0 <= j < |cs| ==> cs[j].Valid() && fresh(cs[j].repr) && cs[j].View() == t.children[from + j]
    ensures forall j, k :: 0 <= j < k < |cs| ==> cs[j].repr !! cs[k].repr
    decreases t, |t.children| - from
  {
    if from == |t.children| {
      return [];
    }
    var rest := CloneAll(t, from + 1);
    var first := Clone(t.children[from]);
    assert forall k :: 0 <= k < |rest| ==> first.repr !! rest[k].repr;
    cs := [first] + rest;
    assert forall k :: 0 < k < |cs| ==> cs[k] == rest[k - 1];
  }

  lemma StackFacts(stack: FixtureStack)
    requires stack.Valid()
    ensures stack.out.Valid() && Disciplined(stack.slots) && SetUpNow(stack.out.events) == Live(stack.slots)
  {
  }

  /** The framework never runs into its own "BUG" errors, and a walk in which nothing outside it goes wrong
      returns without error, however many SetUps, Resets and tests fail. */
  ghost predicate Excused(err: Err, stack: FixtureStack, ext: OtherBundle) {
    err != Bug && (err == Abandoned ==> !stack.faultless || !ext.Lively())
  }

  /** What happens to a test between its start and its end: on a green stack its function is called, which may report an
      error; on a red stack it gets the errors of a fixture. */
  ghost predicate RanOn(status: Status, t: string, e0: seq<Event>, e1: seq<Event>) {
    if status == Green then e1 == e0 + [Body(t)] || e1 == e0 + [Body(t), Error(t)]
    else status == Red && e1 == e0 + [FixtureErrors(t)]
  }

  /** Calls the function of a test, which may report an error or ignore its timeout. */
  method CallTest(t: string, stack: FixtureStack, out: Output) returns (err: Err)
    requires stack.out == out && stack.Ready() && stack.Status() == Green
    requires out.events != [] && out.events[|out.events| - 1].Start? && out.events[|out.events| - 1].test == t
    requires out.events[|out.events| - 1].path == NamesOf(stack.slots) && (out.events[|out.events| - 1].clean ==> stack.Rested())
    modifies out
    ensures stack.Valid() && err != Bug && (err == Abandoned <==> Failed(out.events)) && SameFixtures(old(out.events), out.events)
    ensures err == Abandoned ==> !stack.faultless
    ensures forall f :: Tally(out.events, f) == Tally(old(out.events), f) + RanOnce(t, f)
    ensures err == NoErr ==> RanOn(Green, t, old(out.events), out.events)
    ensures err == Abandoned ==> out.events == old(out.events) + [Body(t), Failure, Error(t)]
  {
    hide FixtureStack.Valid, FixtureStack.Rested, Output.Valid, SetUpNow, LastParent, StuckOn, Failed, HasParent, Fresh,
         ParentFresh, AllFresh, NamesOf, Tally;
    err := NoErr;
    GreenIsSetUp(stack);
    stack.Tell(Body(t));
    var fails: bool := *;
    var hangs := Fault(stack.faultless);
    if hangs {
      err := stack.Fail();
    }
    if fails || hangs {
      stack.Tell(Error(t));
    }
  }

  lemma NothingYet(stack: FixtureStack, ext: OtherBundle, dirty: bool)
    ensures Excused(NoErr, stack, ext) && StaysSilent(ext, dirty, dirty)
  {
  }

  lemma StaysSilentSince(ext: OtherBundle, a: bool, b: bool, c: bool)
    requires StaysSilent(ext, a, b) && StaysSilent(ext, b, c)
    ensures StaysSilent(ext, a, c)
  {
  }

  /** The part of runTest between the start and end events.  In lazy mode, the files it may purge are none of its own
      external data files, nor of those of the fixtures on the stack. */
  method RunTestOnStack(t: string, stack: FixtureStack, out: Output, dl: Downloader)
    returns (err: Err, purgeable: seq<string>)
    requires stack.out == out
    requires out.events != [] && out.events[|out.events| - 1].Start? && out.events[|out.events| - 1].test == t
    requires out.events[|out.events| - 1].path == NamesOf(stack.slots) && (out.events[|out.events| - 1].clean ==> stack.Rested())
    requires stack.Ready() && dl.Valid() && EntitiesOf(dl.held) == NamesOf(stack.slots) + [t]
    modifies stack`dirty, out
    ensures err == Abandoned <==> Failed(stack.out.events)
    ensures stack.Valid() && SameFixtures(old(out.events), out.events)
    ensures forall f :: if err == NoErr then Tally(out.events, f) == Tally(old(out.events), f) + RanOnce(t, f)
                        else Tally(out.events, f) <= Tally(old(out.events), f) + RanOnce(t, f)
    ensures err == Bug ==> stack.Status() == Yellow || (old(stack.dirty) && !stack.combined)
    ensures err == Abandoned ==> !stack.faultless
    ensures err == NoErr ==> RanOn(stack.Status(), t, old(out.events), out.events) && stack.dirty
    ensures dl.lazy ==> dl.SparesData(NamesOf(stack.slots) + [t], purgeable)
    ensures err == NoErr && stack.Status() == Green ==>
      forall p :: p in purgeable <==> p in dl.m.all && p in dl.m.disk.files && p !in dl.others && p !in Total(dl.held)
    ensures !stack.dirty || (old(stack.dirty) && !stack.combined) ==>
      err != NoErr && out.events == if err == Abandoned then old(out.events) + [Failure] else old(out.events)
  {
    hide FixtureStack.Valid, FixtureStack.Rested, Output.Valid, SetUpNow, LastParent, StuckOn, Failed, HasParent, Fresh,
         ParentFresh, Live, Disciplined, StatusOf, Total, NamesOf, Tally;
    purgeable := [];
    err := stack.MarkDirty();
    if err != NoErr {
      return;
    }
    match stack.Status() {
      case Green =>
        purgeable := dl.Purgeable();
        err := CallTest(t, stack, out);
      case Red =>
        RedIsStuck(stack);
        stack.Tell(FixtureErrors(t));
      case Yellow =>
        err := Bug;
    }
  }

  /** On a green stack exactly the fixtures on the stack are set up; on one that is rested they are fresh. */
  lemma GreenIsSetUp(stack: FixtureStack)
    requires stack.Valid() && stack.Status() == Green
    ensures SetUpNow(stack.out.events) == NamesOf(stack.slots)
    ensures stack.Rested() ==> AllFresh(stack.out.events)
  {
    hide Fresh, ParentFresh, HasParent, SetUpNow, Disciplined, RestedOn, Live, StatusOf;
    AllLive(stack.slots);
    if stack.Rested() {
      forall i | 0 <= i < |stack.slots| ensures Fresh(stack.out.events, stack.slots[i].fixt) {
        AllRested(stack.out.events, stack.slots, i);
      }
    }
  }

  /** On a red stack the SetUp of one of them has just failed, or the parent stack is red. */
  lemma RedIsStuck(stack: FixtureStack)
    requires stack.Valid() && stack.Status() == Red
    ensures StuckOn(stack.out.events, NamesOf(stack.slots)) || (HasParent(stack.out.events) && LastParent(stack.out.events) == Red)
  {
  }

  /** RunTestOnStack while the data files of the test are in use. */
  method RunTestWithData(t: string, stack: FixtureStack, out: Output, dl: Downloader) returns (err: Err)
    requires stack.out == out
    requires out.events != [] && out.events[|out.events| - 1].Start? && out.events[|out.events| - 1].test == t
    requires out.events[|out.events| - 1].path == NamesOf(stack.slots) && (out.events[|out.events| - 1].clean ==> stack.Rested())
    requires stack.Ready() && dl.Valid() && EntitiesOf(dl.held) == NamesOf(stack.slots)
    modifies stack`dirty, out, dl, dl.m, dl.m.disk
    ensures err == Abandoned <==> Failed(stack.out.events)
    ensures stack.Valid() && SameFixtures(old(out.events), out.events)
    ensures dl.Valid() && dl.held == old(dl.held) && (err == Abandoned ==> !stack.faultless)
    ensures forall f :: if err == NoErr then Tally(out.events, f) == Tally(old(out.events), f) + RanOnce(t, f)
                        else Tally(out.events, f) <= Tally(old(out.events), f) + RanOnce(t, f)
    ensures err == Bug ==> stack.Status() == Yellow || (old(stack.dirty) && !stack.combined)
    ensures err == NoErr ==> RanOn(stack.Status(), t, old(out.events), out.events) && stack.dirty
  {
    hide Done, Total, Disciplined, StuckOn;
    var uses, failed := dl.BeforeEntity(t);
    assert EntitiesOf(dl.held) == NamesOf(stack.slots) + [t];
    var purgeable;
    err, purgeable := RunTestOnStack(t, stack, out, dl);
    dl.AfterEntity(uses);
  }

  /** runTest. */
  method RunTest(t: string, stack: FixtureStack, out: Output, dl: Downloader) returns (err: Err)
    requires stack.out == out
    requires stack.Ready() && dl.Valid() && EntitiesOf(dl.held) == NamesOf(stack.slots)
    requires !stack.dirty ==> stack.Rested()
    modifies stack`dirty, out, dl, dl.m, dl.m.disk
    ensures err == Abandoned <==> Failed(stack.out.events)
    ensures stack.Valid() && SameFixtures(old(out.events), out.events)
    ensures dl.Valid() && dl.held == old(dl.held) && (err == Abandoned ==> !stack.faultless)
    ensures err == Bug ==> stack.Status() == Yellow || (old(stack.dirty) && !stack.combined)
    ensures err == NoErr ==> stack.Status() != Yellow && stack.dirty
    ensures err == NoErr ==>
      |out.events| > 0 && out.events[|out.events| - 1] == End(t) &&
      RanOn(stack.Status(), t, old(out.events) + [Start(t, NamesOf(stack.slots), !old(stack.dirty))], out.events[..|out.events| - 1])
    ensures err == NoErr && !old(stack.dirty) ==>
      forall f :: Tally(out.events, f) == Tally(old(out.events), f) + OwedTests([t], NamesOf(stack.slots), f)
    ensures !old(stack.dirty) ==>
      forall f :: Tally(out.events, f) <= Tally(old(out.events), f) + OwedTests([t], NamesOf(stack.slots), f)
  {
    hide Delivers, OwedTests, NamesOf, Disciplined, RanOnce, FixtureStack.Valid, FixtureStack.Rested, Output.Valid,
         SetUpNow, LastParent, StuckOn, Failed, HasParent, Fresh, ParentFresh, Live, StatusOf, Total, Tally;
    var outDirFails := Fault(stack.faultless);
    if outDirFails {
      err := stack.Fail();
      return;
    }
    ghost var path := NamesOf(stack.slots);
    stack.Tell(Start(t, NamesOf(stack.slots), !stack.dirty));
    err := RunTestWithData(t, stack, out, dl);
    stack.Tell(End(t));
    forall f ensures Delivers(Start(t, path, true), f) + RanOnce(t, f) + Delivers(End(t), f) == OwedTests([t], path, f) {
      TestOwed(t, path, f);
    }
  }

  /** One round of the first loop of a pass: the next test that uses the top fixture directly. */
  method RunNextTest(tree: FixtTree, stack: FixtureStack, out: Output, dl: Downloader, ghost above: seq<string>) returns (err: Err)
    requires stack.out == out
    requires tree.Valid() && stack.Ready() && stack.Status() != Yellow && !stack.dirty && stack.Rested()
    requires tree.tests != [] && NamesOf(stack.slots) == above + [tree.fixt]
    requires dl.Valid() && EntitiesOf(dl.held) == NamesOf(stack.slots)
    modifies tree`tests, stack`parent, stack`slots, stack`dirty, out, dl, dl.m, dl.m.disk
    ensures dl.Valid() && dl.held == old(dl.held)
    ensures err == Abandoned <==> Failed(stack.out.events)
    ensures tree.Valid() && stack.Valid() && err != Bug && (err == Abandoned ==> !stack.faultless) && tree.tests == old(tree.tests)[1..]
    ensures Conserves(err == NoErr, old(tree.View()), old(out.events), tree.View(), out.events, above)
    ensures tree.View().children == old(tree.View()).children
    ensures LeftOver(old(tree.View()), tree.View()) && Size(tree.View()) < old(Size(tree.View()))
    ensures err == NoErr ==>
      Worsened(stack.steady, old(stack.Fixts()), stack.Fixts()) &&
      stack.dirty == tree.Empty() && (stack.dirty ==> stack.Status() != Yellow) && (!stack.dirty ==> stack.Rested())
  {
    hide NoEmptySubtree, HasExternal, Size, Worsened, Conserves, LeftOver, Output.Valid, SetUpNow, LastParent, StuckOn,
         Failed, HasParent, Fresh, ParentFresh, FixtureStack.Rested, Live, Disciplined, OtherBundle.Lively, StatusOf,
         NamesOf, EntitiesOf, Total, Retry.Honest;
    ghost var t0 := tree.View();
    var t := tree.tests[0];
    tree.SetTests(tree.tests[1..]);
    err := RunTest(t, stack, out, dl);
    TookTest(err == NoErr, t0, old(out.events), tree.View(), out.events, above);
    WorsenedNothing(stack.steady, stack.Fixts());
    if err == NoErr && !tree.Empty() {
      ConservesInexact(t0, old(out.events), tree.View(), out.events, above);
      ghost var e1 := out.events;
      err := stack.Reset();
      ConservesQuietly(err == NoErr, t0, old(out.events), tree.View(), e1, out.events, above);
    }
  }

  /** The first loop of a pass. */
  method RunDirectTests(tree: FixtTree, stack: FixtureStack, out: Output, dl: Downloader, ghost above: seq<string>) returns (err: Err)
    requires stack.out == out
    requires tree.Valid() && stack.Ready() && stack.Status() != Yellow && !stack.dirty && stack.Rested()
    requires NamesOf(stack.slots) == above + [tree.fixt]
    requires dl.Valid() && EntitiesOf(dl.held) == NamesOf(stack.slots)
    modifies tree`tests, stack`parent, stack`slots, stack`dirty, out, dl, dl.m, dl.m.disk
    ensures dl.Valid() && dl.held == old(dl.held)
    ensures err == Abandoned <==> Failed(stack.out.events)
    ensures tree.Valid() && stack.Valid() && err != Bug && (err == Abandoned ==> !stack.faultless)
    ensures tree.View().children == old(tree.View()).children
    ensures Conserves(err == NoErr, old(tree.View()), old(out.events), tree.View(), out.events, above)
    ensures err == NoErr ==>
      LeftOver(old(tree.View()), tree.View()) &&
      Worsened(stack.steady, old(stack.Fixts()), stack.Fixts()) &&
      (tree.tests == [] || stack.Status() == Yellow) &&
      (if stack.dirty then tree.Empty() && stack.Status() != Yellow else stack.Rested()) &&
      (old(tree.tests) != [] ==> Size(tree.View()) < old(Size(tree.View())) && (tree.Empty() ==> stack.dirty)) &&
      (old(tree.tests) == [] ==> tree.View() == old(tree.View()) && stack.Status() != Yellow && !stack.dirty)
  {
    hide LeftOver, Conserves, NoEmptySubtree, HasExternal, Size, Worsened, Output.Valid, SetUpNow, LastParent, StuckOn,
         Failed, HasParent, Fresh, ParentFresh, FixtureStack.Rested, Live, Disciplined, OtherBundle.Lively, StatusOf,
         NamesOf, EntitiesOf, Total, Retry.Honest, FixtTree.Valid, FixtTree.View, Downloader.Valid, OtherBundle.Honest,
         FixtureStack.Valid;
    StackFacts(stack);
    ConservesNothing(tree.View(), out.events, above);
    WorsenedNothing(stack.steady, stack.Fixts());
    ghost var t0, e0, f0 := tree.View(), out.events, stack.Fixts();
    err := NoErr;
    while stack.Status() != Yellow && |tree.tests| > 0
      invariant tree.Valid() && stack.Ready() && err == NoErr
      invariant dl.Valid() && dl.held == old(dl.held)
      invariant tree.View().children == t0.children
      invariant Conserves(true, t0, e0, tree.View(), out.events, above) && LeftOver(t0, tree.View())
      invariant Worsened(stack.steady, f0, stack.Fixts())
      invariant tree.tests == t0.tests ==> tree.View() == t0 && stack.Status() != Yellow && !stack.dirty
      invariant if stack.dirty then tree.Empty() && stack.Status() != Yellow else stack.Rested()
      invariant tree.tests == t0.tests || (Size(tree.View()) < Size(t0) && (tree.Empty() ==> stack.dirty))
      decreases |tree.tests|
    {
      ghost var t1, e1, f1 := tree.View(), out.events, stack.Fixts();
      WorsenedFacts(stack.steady, f0, f1);
      err := RunNextTest(tree, stack, out, dl, above);
      ConservesTransitive(err == NoErr, t0, e0, t1, e1, tree.View(), out.events, above);
      LeftOverTransitive(t0, t1, tree.View());
      if err != NoErr {
        return;
      }
      WorsenedTransitive(stack.steady, f0, f1, stack.Fixts());
    }
  }

  /** runExternalTests, together with what the external bundle does to the stack and to the output. */
  method RunExternalTests(names: seq<string>, stack: FixtureStack, out: Output, ext: OtherBundle)
    returns (unstarted: seq<string>, started: seq<string>, err: Err)
    requires stack.out == out
    requires stack.Ready() && stack.combined && stack.Status() != Yellow && ext.Honest() && names != []
    modifies stack, out
    ensures err == Abandoned <==> Failed(stack.out.events)
    ensures stack.Valid() && Excused(err, stack, ext)
    ensures forall f: Fact :: OfExternal(f) || Tally(out.events, f) == Tally(old(out.events), f)
    ensures err == NoErr ==>
      multiset(started) + multiset(unstarted) == multiset(names) && |unstarted| < |names| &&
      (forall f :: Tally(out.events, f) == Tally(old(out.events), f) + OwedExternal(started, NamesOf(old(stack.slots)), f)) &&
      Worsened(stack.steady, old(stack.Fixts()), stack.Fixts()) && (stack.Status() == Yellow ==> !stack.dirty && stack.Rested()) &&
      stack.dirty == stack.externalDirty && (ext.Silent() && !old(stack.dirty) ==> !stack.dirty)
  {
    var rest, ran, runErr, _, _, _ := Retry.RunExternalTests(names, ext.once, ext.retryn);
    var some: int := *;
    EmitExternal(if runErr == Retry.Success then ran else if 0 <= some < |names| then names[..some] else names, NamesOf(stack.slots), out);
    var served;
    err, served := stack.ServeExternalBundle(ext.requests(names));
    if err == NoErr && runErr != Retry.Success {
      err := stack.Fail();
    }
    if err != NoErr {
      return [], [], err;
    }
    return rest, ran, NoErr;
  }

  /** One round of the second loop of a pass: a run of the pending external tests.  The error for a
      run that succeeds without running any test cannot occur. */
  method RunExternalOnce(tree: FixtTree, stack: FixtureStack, out: Output, ext: OtherBundle, ghost above: seq<string>)
    returns (err: Err)
    requires stack.out == out
    requires tree.Valid() && stack.Ready() && stack.combined && stack.Status() != Yellow
    requires ext.Honest() && tree.externalTests != [] && tree.tests == []
    requires NamesOf(stack.slots) == above + [tree.fixt]
    modifies tree`externalTests, stack, out
    ensures err == Abandoned <==> Failed(stack.out.events)
    ensures tree.Valid() && stack.Valid() && Excused(err, stack, ext)
    ensures tree.View().children == old(tree.View()).children
    ensures Conserves(err == NoErr, old(tree.View()), old(out.events), tree.View(), out.events, above)
    ensures err == NoErr ==>
      LeftOver(old(tree.View()), tree.View()) && Size(tree.View()) < old(Size(tree.View())) &&
      |tree.externalTests| < |old(tree.externalTests)| &&
      Worsened(stack.steady, old(stack.Fixts()), stack.Fixts()) && (stack.Status() == Yellow ==> !stack.dirty && stack.Rested()) &&
      stack.dirty == stack.externalDirty && (ext.Silent() && !old(stack.dirty) ==> !stack.dirty)
  {
    ghost var t0 := tree.View();
    var unstarted, started;
    unstarted, started, err := RunExternalTests(tree.externalTests, stack, out, ext);
    if err != NoErr {
      return;
    }
    if |unstarted| == |tree.externalTests| {
      assert false;
    }
    tree.SetExternalTests(unstarted);
    TookExternal(t0, old(out.events), tree.View(), out.events, started, above);
  }

  /** The second loop of a pass. */
  method RunExternal(tree: FixtTree, stack: FixtureStack, out: Output, ext: OtherBundle, ghost above: seq<string>)
    returns (err: Err)
    requires stack.out == out
    requires tree.Valid() && stack.Ready() && ext.Honest()
    requires tree.externalTests != [] ==> stack.combined
    requires NamesOf(stack.slots) == above + [tree.fixt]
    requires (stack.Status() == Yellow || tree.externalTests != [] ==> !stack.dirty) && (stack.Status() == Yellow ==> stack.Rested())
    requires stack.Status() == Yellow || tree.tests == []
    modifies tree`externalTests, stack, out
    ensures err == Abandoned <==> Failed(stack.out.events)
    ensures tree.Valid() && stack.Valid() && Excused(err, stack, ext)
    ensures tree.View().children == old(tree.View()).children
    ensures Conserves(err == NoErr, old(tree.View()), old(out.events), tree.View(), out.events, above)
    ensures err == NoErr ==> StaysSilent(ext, old(stack.externalDirty), stack.externalDirty)
    ensures err == NoErr ==>
      tree.tests == old(tree.tests) &&
      LeftOver(old(tree.View()), tree.View()) &&
      Worsened(stack.steady, old(stack.Fixts()), stack.Fixts()) &&
      (tree.externalTests == [] || stack.Status() == Yellow) &&
      (stack.Status() == Yellow ==> !stack.dirty && stack.Rested()) &&
      (old(tree.externalTests) == [] || old(stack.Status()) == Yellow ==>
         tree.View() == old(tree.View()) && stack.dirty == old(stack.dirty) && stack.Fixts() == old(stack.Fixts()) &&
         (old(stack.Rested()) ==> stack.Rested())) &&
      (old(tree.externalTests) != [] && old(stack.Status()) != Yellow ==>
         Size(tree.View()) < old(Size(tree.View())) && stack.dirty == stack.externalDirty)
  {
    hide LeftOver, Conserves, OtherBundle.Silent, NoEmptySubtree, HasExternal, Size, Worsened, Output.Valid, SetUpNow,
         LastParent, StuckOn, Failed, HasParent, Fresh, ParentFresh, FixtureStack.Rested, Live, Disciplined,
         OtherBundle.Lively, StatusOf, NamesOf, EntitiesOf, Total, Retry.Honest, FixtTree.Valid, FixtTree.View,
         Downloader.Valid, OtherBundle.Honest, FixtureStack.Valid;
    StackFacts(stack);
    ConservesNothing(tree.View(), out.events, above);
    WorsenedNothing(stack.steady, stack.Fixts());
    ghost var t0, e0, f0 := tree.View(), out.events, stack.Fixts();
    err := NoErr;
    while stack.Status() != Yellow && |tree.externalTests| > 0
      invariant tree.Valid() && stack.Ready() && err == NoErr
      invariant tree.externalTests != [] ==> stack.combined
      invariant tree.View().children == t0.children
      invariant Conserves(true, t0, e0, tree.View(), out.events, above) && LeftOver(t0, tree.View())
      invariant Worsened(stack.steady, f0, stack.Fixts())
      invariant stack.Status() == Yellow ==> !stack.dirty && stack.Rested()
      invariant tree.tests == t0.tests && (stack.Status() == Yellow || tree.tests == [])
      invariant StaysSilent(ext, old(stack.externalDirty), stack.externalDirty)
      invariant ext.Silent() ==> !stack.dirty || t0.externalTests == []
      invariant (tree.View() == t0 && stack.Fixts() == f0 && stack.dirty == old(stack.dirty)) ||
        (Size(tree.View()) < Size(t0) && stack.dirty == stack.externalDirty)
      invariant t0.externalTests == [] || f0.Status() == Yellow ==>
        tree.View() == t0 && stack.Fixts() == f0 && stack.dirty == old(stack.dirty) && (old(stack.Rested()) ==> stack.Rested())
      decreases |tree.externalTests|
    {
      ghost var t1, e1, f1 := tree.View(), out.events, stack.Fixts();
      WorsenedFacts(stack.steady, f0, f1);
      err := RunExternalOnce(tree, stack, out, ext, above);
      ConservesTransitive(err == NoErr, t0, e0, t1, e1, tree.View(), out.events, above);
      if err != NoErr {
        return;
      }
      LeftOverTransitive(t0, t1, tree.View());
      WorsenedTransitive(stack.steady, f0, f1, stack.Fixts());
    }
  }

  /** External tests leave the reset of the stack to the next child. */
  method ResetAfterExternal(stack: FixtureStack, hasExternalTests: bool) returns (err: Err)
    requires stack.Ready() && stack.Status() != Yellow && (!hasExternalTests ==> !stack.dirty && stack.Rested())
    modifies stack`parent, stack`slots, stack`dirty, stack.out
    ensures err == Abandoned <==> Failed(stack.out.events)
    ensures stack.Valid() && err != Bug && (err == Abandoned ==> !stack.faultless) && SameTally(old(stack.out.events), stack.out.events)
    ensures err == NoErr ==>
      !stack.dirty && stack.Rested() && NamesOf(stack.slots) == NamesOf(old(stack.slots)) &&
      Worsened(stack.steady, old(stack.Fixts()), stack.Fixts()) && (!hasExternalTests ==> stack.Status() != Yellow)
  {
    WorsenedNothing(stack.steady, stack.Fixts());
    err := NoErr;
    if hasExternalTests {
      err := stack.Reset();
    }
    if err == NoErr { WorsenedFacts(stack.steady, old(stack.Fixts()), stack.Fixts()); }
  }

  /** The third loop of a pass resets the stack first if external tests have run, and runs the first child. */
  method RunFirstChild(tree: FixtTree, stack: FixtureStack, out: Output, dl: Downloader, ext: OtherBundle,
                       hasExternalTests: bool, ghost above: seq<string>)
    returns (err: Err)
    requires stack.out == out
    requires tree.Valid() && stack.Ready() && ext.Honest() && (HasExternal(tree.View()) ==> stack.combined)
    requires tree.children != [] && stack.Status() != Yellow
    requires NamesOf(stack.slots) == above + [tree.fixt]
    requires !hasExternalTests ==> !stack.dirty && stack.Rested()
    requires dl.Valid() && EntitiesOf(dl.held) == NamesOf(stack.slots)
    modifies tree.repr, stack, out, dl, dl.m, dl.m.disk
    ensures dl.Valid() && dl.held == old(dl.held)
    ensures err == Abandoned <==> Failed(stack.out.events)
    ensures tree.Valid() && stack.Valid() && Excused(err, stack, ext)
    ensures tree.tests == old(tree.tests) && tree.externalTests == old(tree.externalTests) && tree.children == old(tree.children)
    ensures Conserves(err == NoErr, old(tree.View()), old(out.events), tree.View(), out.events, above)
    ensures err == NoErr ==> StaysSilent(ext, old(stack.externalDirty), stack.externalDirty)
    ensures err == NoErr ==>
      var c0, c1, t0, t1 := old(tree.View()).children[0], tree.children[0].View(), old(tree.View()), tree.View();
      Conserves(true, c0, old(out.events), c1, out.events, above + [tree.fixt]) &&
      LeftOver(c0, c1) && t1 == t0.(children := [c1] + t0.children[1..]) &&
      Worsened(stack.steady, old(stack.Fixts()), stack.Fixts()) &&
      (c1.Empty() || stack.Status() == Yellow) &&
      (stack.Status() == Yellow ==> !stack.dirty && stack.Rested()) &&
      (!hasExternalTests && !c0.Empty() ==> Size(c1) < Size(c0)) &&
      (c0.Empty() ==> c1.Empty() && !stack.dirty) &&
      EndsRight(c0, c1, stack.dirty, stack.externalDirty)
    decreases tree.repr, 0
  {
    hide EndsRight, EndingOf, Conserves, OtherBundle.Silent, NoEmptySubtree, Size, Worsened, Output.Valid, LastParent,
         StuckOn, Failed, HasParent, Fresh, ParentFresh, FixtureStack.Rested, SetUpNow, Live, Disciplined,
         OtherBundle.Lively, StatusOf, NamesOf, EntitiesOf, Total, Retry.Honest, HasExternal, LeftOver, OtherBundle.Honest;
    ConservesNothing(tree.View(), out.events, above);
    WorsenedNothing(stack.steady, stack.Fixts());
    ghost var f0 := stack.Fixts();
    err := ResetAfterExternal(stack, hasExternalTests);
    ghost var e1 := out.events;
    ConservesQuietly(false, tree.View(), old(out.events), tree.View(), old(out.events), e1, above);
    if err != NoErr {
      return;
    }
    var subtree := tree.children[0];
    ghost var f1 := stack.Fixts();
    ChildHasExternal(tree.View());
    label before:
    err := RunFixtTree(subtree, stack, out, dl, ext);
    tree.FirstChildChanged@before();
    ConservesSince(err == NoErr, old(tree.View()).children[0], old(out.events), e1, subtree.View(), out.events, above + [tree.fixt]);
    TookChild(err == NoErr, old(tree.View()), old(out.events), subtree.View(), tree.View(), out.events, above);
    if err == NoErr {
      WorsenedTransitive(stack.steady, f0, f1, stack.Fixts());
    }
  }

  /** Runs the first child and removes it if that left it empty. */
  method RunAndPruneChild(tree: FixtTree, stack: FixtureStack, out: Output, dl: Downloader, ext: OtherBundle,
                          hasExternalTests: bool, ghost above: seq<string>)
    returns (err: Err)
    requires stack.out == out
    requires tree.Valid() && stack.Ready() && ext.Honest() && (HasExternal(tree.View()) ==> stack.combined)
    requires tree.children != [] && stack.Status() != Yellow && tree.tests == [] && tree.externalTests == []
    requires NamesOf(stack.slots) == above + [tree.fixt]
    requires !hasExternalTests ==> !stack.dirty && stack.Rested()
    requires dl.Valid() && EntitiesOf(dl.held) == NamesOf(stack.slots)
    modifies tree.repr, stack, out, dl, dl.m, dl.m.disk
    ensures dl.Valid() && dl.held == old(dl.held)
    ensures err == Abandoned <==> Failed(stack.out.events)
    ensures tree.Valid() && stack.Valid() && Excused(err, stack, ext)
    ensures Conserves(err == NoErr, old(tree.View()), old(out.events), tree.View(), out.events, above)
    ensures err == NoErr ==> StaysSilent(ext, old(stack.externalDirty), stack.externalDirty)
    ensures err == NoErr ==>
      LeftOver(old(tree.View()), tree.View()) &&
      Worsened(stack.steady, old(stack.Fixts()), stack.Fixts()) &&
      tree.tests == old(tree.tests) && tree.externalTests == old(tree.externalTests) &&
      (|tree.children| < |old(tree.children)| || (|tree.children| == |old(tree.children)| && stack.Status() == Yellow)) &&
      (stack.Status() == Yellow ==> !stack.dirty && stack.Rested()) &&
      (!hasExternalTests ==> Size(tree.View()) < old(Size(tree.View()))) &&
      EndsRight(old(tree.View()), tree.View(), stack.dirty, stack.externalDirty)
    decreases tree.repr, 1
  {
    hide EndsRight, EndingOf, LeftOver, NoEmptySubtree, HasExternal, OtherBundle.Silent, Conserves, Size, Worsened,
         Output.Valid, SetUpNow, LastParent, StuckOn, Failed, HasParent, Fresh, ParentFresh, FixtureStack.Rested, Live,
         Disciplined, OtherBundle.Lively, StatusOf, NamesOf, EntitiesOf, Total, Retry.Honest;
    ghost var t0 := tree.View();
    err := RunFirstChild(tree, stack, out, dl, ext, hasExternalTests, above);
    if err != NoErr {
      return;
    }
    var subtree := tree.children[0];
    ChildLeftOver(t0, subtree.View(), tree.View());
    if subtree.Empty() {
      ghost var c := subtree.View();
      tree.DropFirstChild();
      DroppedChild(t0, old(out.events), c, tree.View(), out.events, above);
      EndsRightInChild(t0, c, tree.View(), stack.dirty, stack.externalDirty);
    } else {
      EndsRightNotEmpty(t0, tree.View(), stack.dirty, stack.externalDirty);
    }
  }

  /** One round of the third loop of a pass: the first child subtree. */
  method RunNextChild(tree: FixtTree, stack: FixtureStack, out: Output, dl: Downloader, ext: OtherBundle,
                      hasExternalTests: bool, ghost above: seq<string>)
    returns (err: Err)
    requires stack.out == out
    requires tree.Valid() && stack.Ready() && ext.Honest() && (HasExternal(tree.View()) ==> stack.combined)
    requires tree.children != [] && stack.Status() != Yellow && tree.tests == [] && tree.externalTests == []
    requires NamesOf(stack.slots) == above + [tree.fixt]
    requires !hasExternalTests ==> !stack.dirty && stack.Rested()
    requires dl.Valid() && EntitiesOf(dl.held) == NamesOf(stack.slots)
    modifies tree.repr, stack, out, dl, dl.m, dl.m.disk
    ensures dl.Valid() && dl.held == old(dl.held)
    ensures err == Abandoned <==> Failed(stack.out.events)
    ensures tree.Valid() && stack.Valid() && Excused(err, stack, ext)
    ensures Conserves(err == NoErr, old(tree.View()), old(out.events), tree.View(), out.events, above)
    ensures err == NoErr ==> StaysSilent(ext, old(stack.externalDirty), stack.externalDirty)
    ensures err == NoErr ==>
      LeftOver(old(tree.View()), tree.View()) &&
      Worsened(stack.steady, old(stack.Fixts()), stack.Fixts()) &&
      tree.tests == old(tree.tests) && tree.externalTests == old(tree.externalTests) &&
      (|tree.children| < |old(tree.children)| || (|tree.children| == |old(tree.children)| && stack.Status() == Yellow)) &&
      (stack.dirty ==> tree.Empty() && stack.Status() != Yellow) && (stack.Status() == Yellow || !tree.Empty() ==> stack.Rested()) &&
      (!hasExternalTests ==> Size(tree.View()) < old(Size(tree.View()))) &&
      EndsRight(old(tree.View()), tree.View(), stack.dirty, stack.externalDirty)
    decreases tree.repr, 2
  {
    hide EndsRight, EndingOf, LeftOver, OtherBundle.Silent, Conserves, NoEmptySubtree, HasExternal, Size, Worsened,
         Output.Valid, SetUpNow, LastParent, StuckOn, Failed, HasParent, Fresh, ParentFresh, FixtureStack.Rested, Live,
         Disciplined, OtherBundle.Lively, StatusOf, NamesOf, EntitiesOf, Total, Retry.Honest;
    ghost var f0 := stack.Fixts();
    err := RunAndPruneChild(tree, stack, out, dl, ext, hasExternalTests, above);
    if err != NoErr {
      return;
    }
    if stack.Status() != Yellow && !tree.Empty() {
      ghost var f1 := stack.Fixts();
      ConservesInexact(old(tree.View()), old(out.events), tree.View(), out.events, above);
      ghost var e1 := out.events;
      err := stack.Reset();
      ConservesQuietly(err == NoErr, old(tree.View()), old(out.events), tree.View(), e1, out.events, above);
      if err == NoErr {
        WorsenedTransitive(stack.steady, f0, f1, stack.Fixts());
        EndsRightNotEmpty(old(tree.View()), tree.View(), stack.dirty, stack.externalDirty);
      }
    }
  }

  /** The third loop of a pass. */
  method RunChildren(tree: FixtTree, stack: FixtureStack, out: Output, dl: Downloader, ext: OtherBundle,
                     hasExternalTests: bool, ghost above: seq<string>)
    returns (err: Err)
    requires stack.out == out
    requires tree.Valid() && stack.Ready() && ext.Honest() && (HasExternal(tree.View()) ==> stack.combined)
    requires NamesOf(stack.slots) == above + [tree.fixt]
    requires stack.Status() == Yellow ==> !stack.dirty && stack.Rested()
    requires stack.Status() == Yellow || (tree.tests == [] && tree.externalTests == [])
    requires !hasExternalTests && tree.children != [] ==> !stack.dirty && stack.Rested()
    requires dl.Valid() && EntitiesOf(dl.held) == NamesOf(stack.slots)
    modifies tree.repr, stack, out, dl, dl.m, dl.m.disk
    ensures dl.Valid() && dl.held == old(dl.held)
    ensures err == Abandoned <==> Failed(stack.out.events)
    ensures tree.Valid() && stack.Valid() && Excused(err, stack, ext)
    ensures Conserves(err == NoErr, old(tree.View()), old(out.events), tree.View(), out.events, above)
    ensures err == NoErr ==> StaysSilent(ext, old(stack.externalDirty), stack.externalDirty)
    ensures err == NoErr ==>
      LeftOver(old(tree.View()), tree.View()) &&
      Worsened(stack.steady, old(stack.Fixts()), stack.Fixts()) &&
      tree.tests == old(tree.tests) && tree.externalTests == old(tree.externalTests) &&
      (tree.children == [] || stack.Status() == Yellow) &&
      (stack.Status() == Yellow ==> !stack.dirty && stack.Rested()) &&
      (old(tree.children) == [] || old(stack.Status()) == Yellow ==> 
        tree.View() == old(tree.View()) && stack.dirty == old(stack.dirty) && stack.externalDirty == old(stack.externalDirty) &&
        stack.Fixts() == old(stack.Fixts())) &&
      (old(tree.children) != [] && old(stack.Status()) != Yellow ==>
        (!hasExternalTests ==> Size(tree.View()) < old(Size(tree.View()))) &&
        EndsRight(old(tree.View()), tree.View(), stack.dirty, stack.externalDirty))
    decreases tree.repr, 3
  {
    hide EndsRight, EndingOf, LeftOver, OtherBundle.Silent, Conserves, NoEmptySubtree, HasExternal, Size, Worsened,
         Output.Valid, SetUpNow, LastParent, StuckOn, Failed, HasParent, Fresh, ParentFresh, FixtureStack.Rested, Live,
         Disciplined, OtherBundle.Lively, StatusOf, NamesOf, EntitiesOf, Total, Retry.Honest, FixtTree.Valid, FixtTree.View,
         Downloader.Valid, OtherBundle.Honest, FixtureStack.Valid;
    StackFacts(stack);
    ConservesNothing(tree.View(), out.events, above);
    WorsenedNothing(stack.steady, stack.Fixts());
    ghost var t0, e0, f0, d0, x0 := tree.View(), out.events, stack.Fixts(), stack.dirty, stack.externalDirty;
    err := NoErr;
    while stack.Status() != Yellow && |tree.children| > 0
      invariant tree.Valid() && stack.Ready() && err == NoErr
      invariant dl.Valid() && dl.held == old(dl.held)
      invariant Conserves(true, t0, e0, tree.View(), out.events, above) && LeftOver(t0, tree.View())
      invariant Worsened(stack.steady, f0, stack.Fixts())
      invariant tree.tests == t0.tests && tree.externalTests == t0.externalTests
      invariant stack.Status() == Yellow ==> !stack.dirty && stack.Rested()
      invariant !hasExternalTests && tree.children != [] ==> !stack.dirty && stack.Rested()
      invariant (tree.View() == t0 && stack.Fixts() == f0 && stack.dirty == d0 && stack.externalDirty == x0) ||
        ((!hasExternalTests ==> Size(tree.View()) < Size(t0)) && EndsRight(t0, tree.View(), stack.dirty, stack.externalDirty))
      invariant t0.children == [] || f0.Status() == Yellow ==>
        tree.View() == t0 && stack.Fixts() == f0 && stack.dirty == d0 && stack.externalDirty == x0
      invariant stack.Status() == Yellow || (tree.tests == [] && tree.externalTests == [])
      invariant StaysSilent(ext, x0, stack.externalDirty)
      decreases |tree.children|, if stack.Status() == Yellow then 0 else 1
    {
      ghost var t1, e1, f1 := tree.View(), out.events, stack.Fixts();
      WorsenedFacts(stack.steady, f0, f1);
      LeftOverExternal(t0, t1);
      err := RunNextChild(tree, stack, out, dl, ext, hasExternalTests, above);
      ConservesTransitive(err == NoErr, t0, e0, t1, e1, tree.View(), out.events, above);
      if err != NoErr {
        return;
      }
      LeftOverTransitive(t0, t1, tree.View());
      EndsRightSince(t0, t1, tree.View(), stack.dirty, stack.externalDirty);
      WorsenedTransitive(stack.steady, f0, f1, stack.Fixts());
    }
  }

  /** The first two loops of a pass. */
  method RunOwnTests(tree: FixtTree, stack: FixtureStack, out: Output, dl: Downloader, ext: OtherBundle, ghost above: seq<string>)
    returns (err: Err, hasExternalTests: bool)
    requires stack.out == out
    requires tree.Valid() && stack.Ready() && ext.Honest() && (tree.externalTests != [] ==> stack.combined)
    requires NamesOf(stack.slots) == above + [tree.fixt]
    requires stack.Status() != Yellow && !stack.dirty && stack.Rested()
    requires dl.Valid() && EntitiesOf(dl.held) == NamesOf(stack.slots)
    modifies tree`tests, tree`externalTests, stack, out, dl, dl.m, dl.m.disk
    ensures dl.Valid() && dl.held == old(dl.held)
    ensures err == Abandoned <==> Failed(stack.out.events)
    ensures tree.Valid() && stack.Valid() && Excused(err, stack, ext)
    ensures Conserves(err == NoErr, old(tree.View()), old(out.events), tree.View(), out.events, above)
    ensures err == NoErr ==> StaysSilent(ext, old(stack.externalDirty), stack.externalDirty)
    ensures err == NoErr ==>
      hasExternalTests == (old(tree.externalTests) != []) &&
      LeftOver(old(tree.View()), tree.View()) &&
      Worsened(stack.steady, old(stack.Fixts()), stack.Fixts()) &&
      ((tree.tests == [] && tree.externalTests == []) || stack.Status() == Yellow) &&
      (stack.Status() == Yellow ==> !stack.dirty && stack.Rested()) &&
      (!hasExternalTests ==> if stack.dirty then tree.Empty() else stack.Rested()) &&
      (if old(tree.tests) == [] && !hasExternalTests
       then tree.View() == old(tree.View()) && stack.Status() != Yellow && !stack.dirty
       else Size(tree.View()) < old(Size(tree.View()))) &&
      tree.children == old(tree.children) && tree.View().children == old(tree.View()).children &&
      (tree.Empty() && !old(tree.Empty()) ==> if hasExternalTests then stack.dirty == stack.externalDirty else stack.dirty)
  {
    hide LeftOver, OtherBundle.Silent, Conserves, NoEmptySubtree, HasExternal, Size, Worsened, Output.Valid, SetUpNow,
         LastParent, StuckOn, Failed, HasParent, Fresh, ParentFresh, FixtureStack.Rested, Live, Disciplined,
         OtherBundle.Lively, StatusOf, NamesOf, EntitiesOf, Total, Retry.Honest, FixtTree.Valid, FixtTree.View,
         Downloader.Valid, OtherBundle.Honest, FixtureStack.Valid;
    StackFacts(stack);
    ghost var t0, e0, f0 := tree.View(), out.events, stack.Fixts();
    err := RunDirectTests(tree, stack, out, dl, above);
    hasExternalTests := |tree.externalTests| > 0;
    if err != NoErr {
      return;
    }
    ghost var t1, e1, f1 := tree.View(), out.events, stack.Fixts();
    WorsenedFacts(stack.steady, f0, f1);
    err := RunExternal(tree, stack, out, ext, above);
    ConservesTransitive(err == NoErr, t0, e0, t1, e1, tree.View(), out.events, above);
    if err == NoErr {
      LeftOverTransitive(t0, t1, tree.View());
      WorsenedTransitive(stack.steady, f0, f1, stack.Fixts());
    }
  }

  /** The body of a pass on a stack that already holds the fixture: the three loops. */
  method RunOnFixture(tree: FixtTree, stack: FixtureStack, out: Output, dl: Downloader, ext: OtherBundle, ghost above: seq<string>)
    returns (err: Err)
    requires stack.out == out
    requires tree.Valid() && stack.Ready() && ext.Honest() && (HasExternal(tree.View()) ==> stack.combined)
    requires NamesOf(stack.slots) == above + [tree.fixt]
    requires stack.Status() != Yellow && !stack.dirty && stack.Rested() && !tree.Empty()
    requires dl.Valid() && EntitiesOf(dl.held) == NamesOf(stack.slots)
    modifies tree.repr, stack, out, dl, dl.m, dl.m.disk
    ensures dl.Valid() && dl.held == old(dl.held)
    ensures err == Abandoned <==> Failed(stack.out.events)
    ensures tree.Valid() && stack.Valid() && Excused(err, stack, ext)
    ensures Conserves(err == NoErr, old(tree.View()), old(out.events), tree.View(), out.events, above)
    ensures err == NoErr ==> StaysSilent(ext, old(stack.externalDirty), stack.externalDirty)
    ensures err == NoErr ==>
      LeftOver(old(tree.View()), tree.View()) && Size(tree.View()) < old(Size(tree.View())) &&
      Worsened(stack.steady, old(stack.Fixts()), stack.Fixts()) &&
      (stack.dirty ==> tree.Empty() && stack.Status() != Yellow) && (stack.Status() == Yellow ==> stack.Rested()) &&
      (tree.Empty() || stack.Status() == Yellow) &&
      EndsRight(old(tree.View()), tree.View(), stack.dirty, stack.externalDirty)
    decreases tree.repr, 4
  {
    hide EndsRight, EndingOf, OtherBundle.Silent, Conserves, NoEmptySubtree, Size, Worsened, Output.Valid, LastParent,
         StuckOn, Failed, HasParent, Fresh, ParentFresh, FixtureStack.Rested, SetUpNow, Live, Disciplined,
         OtherBundle.Lively, StatusOf, NamesOf, EntitiesOf, Total, Retry.Honest, FixtTree.View, Downloader.Valid,
         OtherBundle.Honest, FixtureStack.Valid;
    StackFacts(stack);
    ghost var t0, e0, f0 := tree.View(), out.events, stack.Fixts();
    var hasExternalTests;
    err, hasExternalTests := RunOwnTests(tree, stack, out, dl, ext, above);
    if err != NoErr {
      return;
    }
    ghost var t1, e1, f1 := tree.View(), out.events, stack.Fixts();
    WorsenedFacts(stack.steady, f0, f1);
    err := RunChildren(tree, stack, out, dl, ext, hasExternalTests, above);
    ConservesTransitive(err == NoErr, t0, e0, t1, e1, tree.View(), out.events, above);
    if err == NoErr {
      LeftOverTransitive(t0, t1, tree.View());
      if t0.children == [] {
        EndsRightAtLeaf(t0, tree.View(), stack.dirty, stack.externalDirty);
      } else if f1.Status() == Yellow {
        EndsRightNotEmpty(t0, tree.View(), stack.dirty, stack.externalDirty);
      } else {
        EndsRightSince(t0, t1, tree.View(), stack.dirty, stack.externalDirty);
      }
      WorsenedTransitive(stack.steady, f0, f1, stack.Fixts());
    }
  }

  /** Push the fixture, run what is pending, pop the fixture. */
  method RunPushed(tree: FixtTree, stack: FixtureStack, out: Output, dl: Downloader, ext: OtherBundle) returns (err: Err)
    requires stack.out == out
    requires tree.Valid() && stack.Ready() && ext.Honest() && (HasExternal(tree.View()) ==> stack.combined)
    requires stack.Status() != Yellow && !stack.dirty && stack.Rested() && !tree.Empty()
    requires dl.Valid() && EntitiesOf(dl.held) == NamesOf(stack.slots) + [tree.fixt]
    modifies tree.repr, stack, out, dl, dl.m, dl.m.disk
    ensures dl.Valid() && dl.held == old(dl.held)
    ensures err == Abandoned <==> Failed(stack.out.events)
    ensures tree.Valid() && stack.Valid() && Excused(err, stack, ext)
    ensures Conserves(err == NoErr, old(tree.View()), old(out.events), tree.View(), out.events, NamesOf(old(stack.slots)))
    ensures err == NoErr ==> StaysSilent(ext, old(stack.externalDirty), stack.externalDirty)
    ensures err == NoErr ==>
      LeftOver(old(tree.View()), tree.View()) && Size(tree.View()) < old(Size(tree.View())) &&
      Worsened(stack.steady, old(stack.Fixts()), stack.Fixts()) &&
      (stack.dirty ==> tree.Empty() && stack.Status() != Yellow) && (stack.Status() == Yellow || !tree.Empty() ==> stack.Rested()) &&
      EndsRight(old(tree.View()), tree.View(), stack.dirty, stack.externalDirty)
    decreases tree.repr, 5
  {
    hide EndsRight, EndingOf, LeftOver, OtherBundle.Silent, Conserves, NoEmptySubtree, HasExternal, Size, Worsened,
         Output.Valid, SetUpNow, LastParent, StuckOn, Failed, HasParent, Fresh, ParentFresh, FixtureStack.Rested, Live,
         Disciplined, OtherBundle.Lively, StatusOf, NamesOf, EntitiesOf, Total, Retry.Honest, FixtTree.Valid, FixtTree.View,
         Downloader.Valid, OtherBundle.Honest;
    ConservesNothing(tree.View(), out.events, NamesOf(stack.slots));
    ghost var above := NamesOf(stack.slots);
    ghost var p, s := stack.parent, stack.slots;
    err := stack.Push(tree.fixt);
    ghost var e1 := out.events;
    ConservesQuietly(false, tree.View(), old(out.events), tree.View(), old(out.events), e1, above);
    if err != NoErr {
      return;
    }
    ghost var x := stack.slots[|s|];
    err := RunOnFixture(tree, stack, out, dl, ext, above);
    ConservesSince(err == NoErr, old(tree.View()), old(out.events), e1, tree.View(), out.events, above);
    if err != NoErr {
      return;
    }
    WorsenedBelow(stack.steady, p, s, x, stack.Fixts());
    ConservesInexact(old(tree.View()), old(out.events), tree.View(), out.events, above);
    ghost var e2 := out.events;
    err := stack.Pop();
    ConservesQuietly(err == NoErr, old(tree.View()), old(out.events), tree.View(), e2, out.events, above);
  }

  /** One pass of runFixtTree, while the data files of the fixture are in use. */
  method RunPass(tree: FixtTree, stack: FixtureStack, out: Output, dl: Downloader, ext: OtherBundle) returns (err: Err)
    requires stack.out == out
    requires tree.Valid() && stack.Ready() && ext.Honest() && (HasExternal(tree.View()) ==> stack.combined)
    requires stack.Status() != Yellow && !stack.dirty && stack.Rested() && !tree.Empty()
    requires dl.Valid() && EntitiesOf(dl.held) == NamesOf(stack.slots)
    modifies tree.repr, stack, out, dl, dl.m, dl.m.disk
    ensures dl.Valid() && dl.held == old(dl.held)
    ensures err == Abandoned <==> Failed(stack.out.events)
    ensures tree.Valid() && stack.Valid() && Excused(err, stack, ext)
    ensures Conserves(err == NoErr, old(tree.View()), old(out.events), tree.View(), out.events, NamesOf(old(stack.slots)))
    ensures err == NoErr ==> StaysSilent(ext, old(stack.externalDirty), stack.externalDirty)
    ensures err == NoErr ==>
      LeftOver(old(tree.View()), tree.View()) && Size(tree.View()) < old(Size(tree.View())) &&
      Worsened(stack.steady, old(stack.Fixts()), stack.Fixts()) &&
      (stack.dirty ==> tree.Empty() && stack.Status() != Yellow) && (stack.Status() == Yellow || !tree.Empty() ==> stack.Rested()) &&
      EndsRight(old(tree.View()), tree.View(), stack.dirty, stack.externalDirty)
    decreases tree.repr, 6
  {
    hide EndsRight, EndingOf, OtherBundle.Silent, Conserves, NoEmptySubtree, HasExternal, Size, Worsened, Done, Total,
         Disciplined, LeftOver, Output.Valid, SetUpNow, LastParent, StuckOn, Failed, HasParent, Fresh, ParentFresh,
         FixtureStack.Rested, Live, OtherBundle.Lively, StatusOf, Retry.Honest;
    var uses, failed := dl.BeforeEntity(tree.fixt);
    assert EntitiesOf(dl.held) == NamesOf(stack.slots) + [tree.fixt];
    err := RunPushed(tree, stack, out, dl, ext);
    dl.AfterEntity(uses);
  }

  /** runFixtTree.  As the source notes, a stack that is not yellow must be clean on entry. */
  method RunFixtTree(tree: FixtTree, stack: FixtureStack, out: Output, dl: Downloader, ext: OtherBundle)
    returns (err: Err)
    requires stack.out == out
    requires tree.Valid() && stack.Ready() && ext.Honest() && (HasExternal(tree.View()) ==> stack.combined)
    requires stack.Status() != Yellow ==> !stack.dirty && stack.Rested()
    requires dl.Valid() && EntitiesOf(dl.held) == NamesOf(stack.slots)
    modifies tree.repr, stack, out, dl, dl.m, dl.m.disk
    ensures dl.Valid() && dl.held == old(dl.held)
    ensures err == Abandoned <==> Failed(stack.out.events)
    ensures tree.Valid() && stack.Valid() && Excused(err, stack, ext)
    ensures Conserves(err == NoErr, old(tree.View()), old(out.events), tree.View(), out.events, NamesOf(old(stack.slots)))
    ensures err == NoErr ==> StaysSilent(ext, old(stack.externalDirty), stack.externalDirty)
    ensures err == NoErr ==>
      LeftOver(old(tree.View()), tree.View()) &&
      Worsened(stack.steady, old(stack.Fixts()), stack.Fixts()) &&
      (tree.Empty() || stack.Status() == Yellow) &&
      SetUpNow(out.events) == SetUpNow(old(out.events))
    ensures err == NoErr && (old(stack.Status()) == Yellow || old(tree.Empty())) ==>
      tree.View() == old(tree.View()) && stack.dirty == old(stack.dirty) && (old(stack.Rested()) ==> stack.Rested())
    ensures err == NoErr && old(stack.Status()) != Yellow ==>
      (stack.Status() == Yellow ==> !stack.dirty && stack.Rested()) &&
      (!old(tree.Empty()) ==> Size(tree.View()) < old(Size(tree.View())))
    ensures err == NoErr ==> EndsRight(old(tree.View()), tree.View(), stack.dirty, stack.externalDirty)
    decreases tree.repr, 7
  {
    hide EndsRight, EndingOf, LeftOver, OtherBundle.Silent, Conserves, NoEmptySubtree, HasExternal, Size, Worsened,
         Output.Valid, SetUpNow, LastParent, StuckOn, Failed, HasParent, Fresh, ParentFresh, FixtureStack.Rested, Live,
         Disciplined, OtherBundle.Lively, StatusOf, NamesOf, EntitiesOf, Total, Retry.Honest, FixtTree.Valid, FixtTree.View,
         Downloader.Valid, OtherBundle.Honest, StaysSilent;
    NothingYet(stack, ext, stack.externalDirty);
    ConservesNothing(tree.View(), out.events, NamesOf(stack.slots));
    WorsenedNothing(stack.steady, stack.Fixts());
    EndsRightNotEmpty(tree.View(), tree.View(), stack.dirty, stack.externalDirty);
    ghost var t0, e0, f0, d0, r0 := tree.View(), out.events, stack.Fixts(), stack.dirty, stack.Rested();
    ghost var above := NamesOf(stack.slots);
    err := NoErr;
    while !tree.Empty() && stack.Status() != Yellow
      invariant tree.Valid() && stack.Ready() && err == NoErr
      invariant dl.Valid() && dl.held == old(dl.held)
      invariant Conserves(true, t0, e0, tree.View(), out.events, above) && LeftOver(t0, tree.View())
      invariant Worsened(stack.steady, f0, stack.Fixts())
      invariant f0.Status() == Yellow || t0.Empty() ==> tree.View() == t0 && stack.dirty == d0 && stack.Fixts() == f0 && (r0 ==> stack.Rested())
      invariant f0.Status() != Yellow && (stack.Status() == Yellow || !tree.Empty()) ==> !stack.dirty && stack.Rested()
      invariant (tree.View() == t0 && stack.Fixts() == f0) || Size(tree.View()) < Size(t0)
      invariant EndsRight(t0, tree.View(), stack.dirty, stack.externalDirty)
      invariant StaysSilent(ext, old(stack.externalDirty), stack.externalDirty)
      decreases Size(tree.View())
    {
      ghost var t1, e1, f1, x1 := tree.View(), out.events, stack.Fixts(), stack.externalDirty;
      WorsenedFacts(stack.steady, f0, f1);
      LeftOverExternal(t0, t1);
      err := RunPass(tree, stack, out, dl, ext);
      ConservesTransitive(err == NoErr, t0, e0, t1, e1, tree.View(), out.events, above);
      if err != NoErr {
        return;
      }
      StaysSilentSince(ext, old(stack.externalDirty), x1, stack.externalDirty);
      LeftOverTransitive(t0, t1, tree.View());
      EndsRightSince(t0, t1, tree.View(), stack.dirty, stack.externalDirty);
      WorsenedTransitive(stack.steady, f0, f1, stack.Fixts());
    }
    LiveKept(stack.steady, f0, stack.Fixts());
  }

  /** What the source says about a walk, that it leaves the stack dirty, fails for external tests: if the other bundle
      calls no test function for them, the walk ends on a clean, green stack. */
  method WalkSilently(tree: FixtTree, stack: FixtureStack, out: Output, dl: Downloader, ext: OtherBundle) returns (err: Err)
    requires stack.out == out
    requires tree.Valid() && tree.children == [] && tree.externalTests != []
    requires stack.Ready() && stack.combined && stack.faultless && stack.steady
    requires stack.Status() == Green && !stack.dirty && stack.Rested() && !stack.externalDirty
    requires ext.Honest() && ext.Lively() && ext.Silent()
    requires dl.Valid() && EntitiesOf(dl.held) == NamesOf(stack.slots)
    modifies tree.repr, stack, out, dl, dl.m, dl.m.disk
    ensures err == NoErr && tree.Empty() && stack.Status() == Green && !stack.dirty
  {
    hide *;
    ghost var t, f := tree.View(), stack.Fixts();
    NowIs(stack);
    err := RunFixtTree(tree, stack, out, dl, ext);
    ViewEmpty(tree);
    SteadyEnd(err, stack, ext, f, t, tree.View());
  }

  lemma NowIs(stack: FixtureStack)
    ensures stack.Status() == stack.Fixts().Status()
  {
  }

  lemma ViewEmpty(tree: FixtTree)
    requires tree.Valid()
    ensures tree.Empty() <==> tree.View().Empty()
  {
  }

  lemma SteadyEnd(err: Err, stack: FixtureStack, ext: OtherBundle, f: Fixtures, t0: Tree, t1: Tree)
    requires Excused(err, stack, ext) && stack.faultless && stack.steady && ext.Lively() && ext.Silent() && f.Status() == Green
    requires t0.children == [] && t0.externalTests != []
    requires err == NoErr ==>
      Worsened(stack.steady, f, stack.Fixts()) && (t1.Empty() || stack.Status() == Yellow) &&
      EndsRight(t0, t1, stack.dirty, stack.externalDirty) && StaysSilent(ext, false, stack.externalDirty)
    ensures err == NoErr && t1.Empty() && stack.Status() == Green && !stack.dirty
  {
  }

  /** A bundle that reports every test as skipped, and sends no requests. */
  function SkippingBundle(): (b: OtherBundle)
    ensures b.Honest() && b.Lively() && b.Silent()
  {
    OtherBundle((k, ts) => Retry.Attempt(if ts == [] then [] else [Retry.Result(ts[0], false)], false), 0, names => [])
  }

  /** So it is for a test that the other bundle only reports as skipped. */
  method SkippedExternalTestLeavesClean() returns (err: Err, tree: FixtTree, stack: FixtureStack)
    ensures err == NoErr && tree.Empty() && stack.Status() == Green && !stack.dirty
  {
    hide OtherBundle.Honest, OtherBundle.Lively, OtherBundle.Silent;
    var disk := new Disk(true, c => c, map[], map[], map[]);
    var m := new Manager("", disk, []);
    var dl := new Downloader(false, m, map[], map[]);
    var out := new Output();
    tree := Clone(Tree("f", [], ["e"], []));
    out.EmitQuietly(NewStack(true));
    out.EmitQuietly(Parent(Green));
    stack := new FixtureStack(true, true, true, Green, out);
    assert NamesOf(stack.slots) == [] == EntitiesOf(dl.held);
    err := WalkSilently(tree, stack, out, dl, SkippingBundle());
  }
}

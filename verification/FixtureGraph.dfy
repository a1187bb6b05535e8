/** The parent relation of fixtures, and the start fixture that a bundle reports for each of them. */
module FixtureGraph {

  /** Fixtures of a bundle: from the name of a fixture to the name of its parent. */
  type Parents = map<string, string>

  /** The k-th fixture on the way up from f: f itself for 0; empty once a fixture is not in the bundle. */
  ghost function Up(parents: Parents, f: string, k: nat): seq<string>
    decreases k
  {
    if k == 0 then [f]
    else if f in parents then Up(parents, parents[f], k - 1)
    else []
  }

  ghost predicate Ends(parents: Parents, f: string) {
    exists k: nat :: Up(parents, f, k) == []
  }

  /** Every way up leaves the bundle. */
  ghost predicate Acyclic(parents: Parents) {
    forall f :: Ends(parents, f)
  }

  /** g is f or an ancestor of f. */
  ghost predicate Above(parents: Parents, f: string, g: string) {
    exists k: nat :: Up(parents, f, k) == [g]
  }

  /** The number of steps after which the way up from f has left the bundle. */
  ghost function Height(parents: Parents, f: string): nat
    requires Acyclic(parents)
    ensures Up(parents, f, Height(parents, f)) == [] && Height(parents, f) > 0
    ensures forall j: nat :: j < Height(parents, f) ==> Up(parents, f, j) != []
  {
    assert Ends(parents, f);
    var k: nat :| Up(parents, f, k) == [];
    FirstExit(parents, f, k)
  }

  ghost function FirstExit(parents: Parents, f: string, k: nat): (n: nat)
    requires Up(parents, f, k) == []
    ensures 0 < n <= k && Up(parents, f, n) == [] && forall j: nat :: j < n ==> Up(parents, f, j) != []
    decreases k
  {
    if j: nat :| j < k && Up(parents, f, j) == [] then FirstExit(parents, f, j) else k
  }

  /** Going up one step lowers the height by one. */
  lemma HeightOfParent(parents: Parents, f: string)
    requires Acyclic(parents) && f in parents
    ensures Height(parents, f) == Height(parents, parents[f]) + 1
  {
    var n, m := Height(parents, f), Height(parents, parents[f]);
    assert Up(parents, f, m + 1) == [];
    assert Up(parents, parents[f], n - 1) == Up(parents, f, n);
  }

  lemma {:induction false} UpTwice(parents: Parents, f: string, j: nat, g: string, k: nat)
    requires Up(parents, f, j) == [g]
    ensures Up(parents, f, j + k) == Up(parents, g, k)
    decreases j
  {
    if j > 0 { UpTwice(parents, parents[f], j - 1, g, k); }
  }

  lemma AboveTransitive(parents: Parents, f: string, g: string, h: string)
    requires Above(parents, f, g) && Above(parents, g, h)
    ensures Above(parents, f, h)
  {
    var j: nat :| Up(parents, f, j) == [g];
    var k: nat :| Up(parents, g, k) == [h];
    UpTwice(parents, f, j, g, k);
  }

  lemma AboveParent(parents: Parents, f: string, g: string)
    requires f in parents
    ensures Above(parents, f, g) <==> g == f || Above(parents, parents[f], g)
  {
    assert Up(parents, f, 0) == [f];
    if Above(parents, f, g) && g != f {
      var k: nat :| Up(parents, f, k) == [g];
      assert Up(parents, parents[f], k - 1) == [g];
    }
    if Above(parents, parents[f], g) {
      var k: nat :| Up(parents, parents[f], k) == [g];
      assert Up(parents, f, k + 1) == [g];
    }
  }

  lemma AboveSelf(parents: Parents, f: string)
    ensures Above(parents, f, f)
  {
    assert Up(parents, f, 0) == [f];
  }

  lemma NothingAboveAbsent(parents: Parents, f: string, g: string)
    requires f !in parents && Above(parents, f, g)
    ensures g == f
  {
  }

  /** Two fixtures above the same one lie above one another. */
  lemma AboveLinear(parents: Parents, f: string, g: string, h: string)
    requires Above(parents, f, g) && Above(parents, f, h)
    ensures Above(parents, g, h) || Above(parents, h, g)
  {
    var j: nat :| Up(parents, f, j) == [g];
    var k: nat :| Up(parents, f, k) == [h];
    if j <= k {
      UpTwice(parents, f, j, g, k - j);
    } else {
      UpTwice(parents, f, k, h, j - k);
    }
  }

  /** s is where the way up from f leaves the bundle: the first ancestor-or-self that it does not contain. */
  ghost predicate LeavesAt(parents: Parents, f: string, s: string) {
    Above(parents, f, s) && s !in parents
  }

  /** There is at most one such fixture. */
  lemma LeavesAtOnce(parents: Parents, f: string, s: string, t: string)
    requires LeavesAt(parents, f, s) && LeavesAt(parents, f, t)
    ensures s == t
  {
    AboveLinear(parents, f, s, t);
  }

  /** buildStartFixtureMap: findStart memoises in starts. */
  class StartFixtures {
    const fixtures: Parents
    var starts: map<string, string>

    ghost predicate Valid() reads this {
      Acyclic(fixtures) &&
      forall f :: f in starts ==> f in fixtures && LeavesAt(fixtures, fixtures[f], starts[f])
    }

    constructor (fixtures: Parents)
      requires Acyclic(fixtures)
      ensures Valid() && this.fixtures == fixtures && starts == map[]
    {
      this.fixtures, starts := fixtures, map[];
    }

    /** The memoised search returns what a search without memory would: the first absent ancestor. */
    method FindStart(f: string) returns (start: string)
      requires Valid() && f in fixtures
      modifies this
      ensures Valid() && f in starts && starts[f] == start
      ensures LeavesAt(fixtures, fixtures[f], start)
      ensures forall g :: g in old(starts) ==> g in starts && starts[g] == old(starts[g])
      decreases Height(fixtures, f)
    {
      if f in starts {
        return starts[f];
      }
      var parent := fixtures[f];
      HeightOfParent(fixtures, f);
      if parent in fixtures {
        start := FindStart(parent);
        AboveParent(fixtures, parent, start);
      } else {
        start := parent;
        AboveSelf(fixtures, parent);
      }
      starts := starts[f := start];
    }

    /** Whatever order the map is iterated in, every fixture gets the first absent ancestor. */
    method FindAll()
      requires Valid() && starts == map[]
      modifies this
      ensures Valid() && starts.Keys == fixtures.Keys
    {
      var todo := fixtures.Keys;
      while todo != {}
        invariant Valid() && todo <= fixtures.Keys
        invariant fixtures.Keys - todo <= starts.Keys
      {
        var f :| f in todo;
        var _ := FindStart(f);
        todo := todo - {f};
      }
    }

    /** The start fixture that listEntities gives to a test with this fixture. */
    method StartOfTest(fixture: string) returns (start: string)
      requires Valid() && starts.Keys == fixtures.Keys
      ensures LeavesAt(fixtures, fixture, start)
    {
      if fixture in starts {
        AboveParent(fixtures, fixture, starts[fixture]);
        return starts[fixture];
      }
      AboveSelf(fixtures, fixture);
      return fixture;
    }
  }
}

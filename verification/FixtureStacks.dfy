/** The stack of fixtures that tests run on: InternalStack, CombinedStack and the
    internalOrCombinedStack wrapper around them.  Whether SetUp, Reset or TearDown succeeds, fails or
    ignores its timeout, and whether a request to the parent stack gets through, is nondeterministic. */
module FixtureStacks {
  import opened Common
  import opened Events

  /** A fixture on the stack together with its status. */
  datatype Slot = Slot(fixt: string, status: Status)

  /** An error returned by framework code.  Bug is every error the source words as "BUG: ...";
      Abandoned is user code that ignored its timeout, or a failed directory or network operation. */
  datatype Err = NoErr | Bug | Abandoned

  /** The requests of another bundle that change a stack. */
  datatype Request = ResetStack | SetDirtyTo(dirty: bool)

  /** The status of a sequence of fixtures, bottom to top: that of the first one that is not green. */
  function StatusOf(slots: seq<Slot>): Status {
    if slots == [] then Green
    else if slots[0].status != Green then slots[0].status
    else StatusOf(slots[1..])
  }

  ghost predicate Has(slots: seq<Slot>, s: Status) {
    exists i :: 0 <= i < |slots| && slots[i].status == s
  }

  /** The invariant that the type's documentation gives for fixture statuses, sharpened: a yellow
      fixture is the only one that is not green; without one, green fixtures lie below red ones. */
  ghost predicate Disciplined(slots: seq<Slot>) {
    (forall i, j :: 0 <= i < |slots| && 0 <= j < |slots| && i != j && slots[i].status == Yellow ==> slots[j].status == Green) &&
    (forall i, j :: 0 <= i < j < |slots| && slots[i].status == Red ==> slots[j].status == Red)
  }

  /** On a disciplined stack the first-non-green rule computes the documented meaning of a status. */
  lemma {:induction false} StatusMeaning(slots: seq<Slot>)
    requires Disciplined(slots)
    ensures StatusOf(slots) == Yellow <==> Has(slots, Yellow)
    ensures StatusOf(slots) == Red <==> Has(slots, Red)
    ensures StatusOf(slots) == Green <==> forall i :: 0 <= i < |slots| ==> slots[i].status == Green
  {
    if slots != [] {
      var rest := slots[1..];
      assert forall i :: 0 <= i < |rest| ==> rest[i] == slots[i + 1];
      StatusMeaning(rest);
      if slots[0].status == Green {
        assert forall s :: s != Green && Has(slots, s) ==> Has(rest, s) by {
          forall s | s != Green && Has(slots, s) ensures Has(rest, s) {
            var i :| 0 <= i < |slots| && slots[i].status == s;
            assert rest[i - 1].status == s;
          }
        }
        assert forall s :: Has(rest, s) ==> Has(slots, s);
        assert forall i :: 0 < i < |slots| ==> slots[i] == rest[i - 1];
      } else {
        assert Has(slots, slots[0].status);
        assert slots[0].status == Red ==> !Has(slots, Yellow);
      }
    }
  }

  /** The fixtures below a point of the walk: the cached status of the parent stack (green when there
      is no parent stack) and the fixtures of this bundle. */
  datatype Fixtures = Fixtures(parent: Status, slots: seq<Slot>) {
    function Status(): Status { if parent != Green then parent else StatusOf(slots) }

    function Names(): seq<string> { NamesOf(slots) }
  }

  function NamesOf(slots: seq<Slot>): seq<string> { seq(|slots|, i requires 0 <= i < |slots| => slots[i].fixt) }

  /** What any run of framework code may do to the fixtures it was given: nothing, or, if all of them
      were green, fail to reset exactly one of them (or the parent stack); nothing on a steady stack. */
  ghost predicate Worsened(steady: bool, a: Fixtures, b: Fixtures) {
    a == b ||
    (!steady && a.Status() == Green && Disciplined(a.slots) &&
     ((b.parent == Yellow && b.slots == a.slots) ||
      (b.parent == Green && exists i :: 0 <= i < |a.slots| && b.slots == a.slots[i := a.slots[i].(status := Yellow)])))
  }

  lemma WorsenedNothing(steady: bool, a: Fixtures)
    ensures Worsened(steady, a, a)
  {
  }

  lemma WorsenedFacts(steady: bool, a: Fixtures, b: Fixtures)
    requires Worsened(steady, a, b) && Disciplined(a.slots)
    ensures Disciplined(b.slots) && b.Names() == a.Names()
    ensures a != b ==> !steady && a.Status() == Green && b.Status() == Yellow
  {
    StatusMeaning(a.slots);
    if a != b && b.parent == Green {
      var i :| 0 <= i < |a.slots| && b.slots == a.slots[i := a.slots[i].(status := Yellow)];
      assert b.slots[i].status == Yellow;
      assert Has(b.slots, Yellow);
    }
    StatusMeaning(b.slots);
  }

  lemma WorsenedTransitive(steady: bool, a: Fixtures, b: Fixtures, c: Fixtures)
    requires Worsened(steady, a, b) && Worsened(steady, b, c) && Disciplined(a.slots)
    ensures Worsened(steady, a, c)
  {
    WorsenedFacts(steady, a, b);
  }

  /** Popping the top fixture leaves the fixtures below it no worse than the whole stack got. */
  lemma WorsenedBelow(steady: bool, p: Status, s: seq<Slot>, x: Slot, b: Fixtures)
    requires Disciplined(s + [x]) && Worsened(steady, Fixtures(p, s + [x]), b)
    ensures |b.slots| == |s| + 1
    ensures Disciplined(s) && Worsened(steady, Fixtures(p, s), b.(slots := b.slots[..|s|]))
    ensures b.Status() != Yellow ==> b.(slots := b.slots[..|s|]).Status() != Yellow
  {
    WorsenedFacts(steady, Fixtures(p, s + [x]), b);
    assert |b.Names()| == |s| + 1;
    var t := s + [x];
    assert forall i :: 0 <= i < |s| ==> t[i] == s[i];
    assert Disciplined(s);
    StatusMeaning(t);
    StatusMeaning(s);
    assert t[..|s|] == s;
    if Fixtures(p, t) != b {
      assert forall i :: 0 <= i < |s| ==> s[i].status == Green by {
        assert forall i :: 0 <= i < |s| ==> t[i] == s[i];
      }
      if b.parent == Green {
        var i :| 0 <= i < |t| && b.slots == t[i := t[i].(status := Yellow)];
        if i < |s| {
          assert b.slots[..|s|] == s[i := s[i].(status := Yellow)];
        } else {
          assert b.slots[..|s|] == s;
        }
      }
    }
  }

  /** Pushing onto fixtures that are not yellow keeps the discipline and does not turn them yellow. */
  lemma PushedFacts(p: Status, s: seq<Slot>, x: Slot)
    requires Disciplined(s) && StatusOf(s) != Yellow && x.status != Yellow
    requires StatusOf(s) == Red ==> x.status == Red
    ensures Disciplined(s + [x])
    ensures StatusOf(s + [x]) == if StatusOf(s) == Green then x.status else Red
    ensures p != Yellow ==> Fixtures(p, s + [x]).Status() != Yellow
    ensures NamesOf(s + [x]) == NamesOf(s) + [x.fixt]
    ensures Live(s + [x]) == Live(s) + (if x.status == Red then [] else [x.fixt])
  {
    hide Disciplined, Live, StatusOf;
    LiveNext(s, x);
    StatusNext(s, x);
    StaysDisciplined(s, x);
  }

  /** The first fixture that is not green is among the old ones, or it is the new one. */
  lemma {:induction false} StatusNext(s: seq<Slot>, x: Slot)
    ensures StatusOf(s + [x]) == if StatusOf(s) == Green then x.status else StatusOf(s)
  {
    if s != [] {
      assert (s + [x])[1..] == s[1..] + [x];
      StatusNext(s[1..], x);
    }
  }

  lemma StaysDisciplined(s: seq<Slot>, x: Slot)
    requires Disciplined(s) && StatusOf(s) != Yellow && x.status != Yellow
    requires StatusOf(s) == Red ==> x.status == Red
    ensures Disciplined(s + [x])
  {
    hide StatusOf;
    StatusMeaning(s);
    var t := s + [x];
    forall i | 0 <= i < |s| ensures t[i] == s[i] && s[i].status != Yellow && (s[i].status == Red ==> x.status == Red) {
      if s[i].status != Green { assert Has(s, s[i].status); }
    }
  }

  // ----- What is set up -----

  /** The fixtures of a stack that are not red: those that should be set up. */
  ghost function Live(slots: seq<Slot>): seq<string> {
    if slots == [] then []
    else Live(slots[..|slots| - 1]) + (if slots[|slots| - 1].status == Red then [] else [slots[|slots| - 1].fixt])
  }

  lemma LiveNext(slots: seq<Slot>, x: Slot)
    ensures Live(slots + [x]) == Live(slots) + (if x.status == Red then [] else [x.fixt])
  {
    assert (slots + [x])[..|slots|] == slots;
  }

  /** If no fixture is red, all are live. */
  lemma {:induction false} LiveAll(slots: seq<Slot>)
    requires forall i :: 0 <= i < |slots| ==> slots[i].status != Red
    ensures Live(slots) == NamesOf(slots)
  {
    if slots != [] { LiveAll(slots[..|slots| - 1]); }
  }

  /** Failing to reset a fixture does not change which ones are set up. */
  lemma LiveKept(steady: bool, a: Fixtures, b: Fixtures)
    requires Worsened(steady, a, b) && Disciplined(a.slots)
    ensures Live(a.slots) == Live(b.slots)
  {
    WorsenedFacts(steady, a, b);
    if a.slots != b.slots {
      StatusMeaning(a.slots);
      StatusMeaning(b.slots);
      LiveAll(a.slots);
      LiveAll(b.slots);
    }
  }

  lemma PoppedFacts(s: seq<Slot>, x: Slot)
    requires Disciplined(s + [x])
    ensures Disciplined(s) && Live(s + [x]) == Live(s) + (if x.status == Red then [] else [x.fixt])
    ensures StatusOf(s + [x]) != Yellow ==> StatusOf(s) != Yellow
    ensures StatusOf(s) == Red ==> StatusOf(s + [x]) == Red && x.status == Red && |Live(s)| < |NamesOf(s)|
    ensures NamesOf(s + [x]) == NamesOf(s) + [x.fixt]
  {
    hide Live;
    var t := s + [x];
    assert forall i :: 0 <= i < |s| ==> t[i] == s[i];
    LiveNext(s, x);
    StatusNext(s, x);
    StatusMeaning(s);
    if StatusOf(s) == Red {
      var i :| 0 <= i < |s| && s[i].status == Red;
      assert t[i].status == Red && t[|s|] == x;
      FewerLive(s, i);
    }
  }

  /** Where a stack is stuck does not depend on the fixtures above. */
  lemma StuckBelow(events: seq<Event>, path: seq<string>, fixt: string)
    ensures StuckOn(events, path) ==> StuckOn(events, path + [fixt])
    ensures StuckOn(events, path + [fixt]) && |SetUpNow(events)| < |path| ==> StuckOn(events, path)
  {
    hide SetUpNow;
    var n := |SetUpNow(events)|;
    if n < |path| { assert (path + [fixt])[..n] == path[..n]; }
  }

  /** On a green stack, a fixture whose Reset fails turns yellow. */
  lemma ResetFails(slots: seq<Slot>, i: nat)
    requires Disciplined(slots) && StatusOf(slots) == Green && i < |slots|
    ensures var after := slots[i := slots[i].(status := Yellow)];
      slots[i].status == Green && Disciplined(after) && StatusOf(after) == Yellow && Live(after) == Live(slots) &&
      Worsened(false, Fixtures(Green, slots), Fixtures(Green, after))
  {
    var after := slots[i := slots[i].(status := Yellow)];
    StatusMeaning(slots);
    LiveKept(false, Fixtures(Green, slots), Fixtures(Green, after));
    WorsenedFacts(false, Fixtures(Green, slots), Fixtures(Green, after));
  }

  lemma ParentFails(slots: seq<Slot>)
    requires StatusOf(slots) == Green && Disciplined(slots)
    ensures Worsened(false, Fixtures(Green, slots), Fixtures(Yellow, slots))
  {
  }

  lemma AllLive(slots: seq<Slot>)
    requires Disciplined(slots) && StatusOf(slots) == Green
    ensures Live(slots) == NamesOf(slots)
  {
    StatusMeaning(slots);
    LiveAll(slots);
  }

  lemma {:induction false} FewerLive(slots: seq<Slot>, i: nat)
    requires i < |slots| && slots[i].status == Red
    ensures |Live(slots)| < |slots|
  {
    var init := slots[..|slots| - 1];
    if i < |init| {
      FewerLive(init, i);
    } else {
      AtMostLive(init);
    }
  }

  lemma {:induction false} AtMostLive(slots: seq<Slot>)
    ensures |Live(slots)| <= |slots|
  {
    if slots != [] { AtMostLive(slots[..|slots| - 1]); }
  }

  // ----- What is fresh -----

  /** The fixtures below the lowest one that is not green are fresh. */
  ghost predicate RestedOn(events: seq<Event>, slots: seq<Slot>) {
    slots == [] || slots[0].status != Green || (Fresh(events, slots[0].fixt) && RestedOn(events, slots[1..]))
  }

  lemma {:induction false} RestedStays(e0: seq<Event>, e1: seq<Event>, slots: seq<Slot>)
    requires RestedOn(e0, slots) && forall fixt :: Fresh(e0, fixt) ==> Fresh(e1, fixt)
    ensures RestedOn(e1, slots)
  {
    hide Fresh;
    if slots != [] && slots[0].status == Green { RestedStays(e0, e1, slots[1..]); }
  }

  lemma {:induction false} RestedNext(events: seq<Event>, s: seq<Slot>, x: Slot)
    ensures RestedOn(events, s + [x]) <==> RestedOn(events, s) && (StatusOf(s) == Green && x.status == Green ==> Fresh(events, x.fixt))
  {
    hide Fresh;
    if s != [] {
      assert (s + [x])[1..] == s[1..] + [x];
      RestedNext(events, s[1..], x);
    } else {
      assert (s + [x])[1..] == [];
    }
  }

  lemma {:induction false} RestedUpTo(events: seq<Event>, slots: seq<Slot>, n: nat)
    requires n <= |slots| && forall i :: 0 <= i < n ==> Fresh(events, slots[i].fixt)
    requires n < |slots| ==> slots[n].status != Green
    ensures RestedOn(events, slots)
  {
    hide Fresh;
    if n > 0 { RestedUpTo(events, slots[1..], n - 1); }
  }

  /** On a green stack that is all of them. */
  lemma {:induction false} AllRested(events: seq<Event>, slots: seq<Slot>, i: nat)
    requires RestedOn(events, slots) && StatusOf(slots) == Green && i < |slots|
    ensures Fresh(events, slots[i].fixt)
  {
    hide Fresh;
    if i > 0 { AllRested(events, slots[1..], i - 1); }
  }

  lemma ResetsNext(fixts: seq<string>, i: nat)
    requires i < |fixts|
    ensures Resets(fixts[..i + 1]) == Resets(fixts[..i]) + [Fixture(ResetOf(fixts[i], true))]
  {
  }

  /** The calls of a round of resets that all succeed. */
  function Resets(fixts: seq<string>): seq<Event> { seq(|fixts|, i requires 0 <= i < |fixts| => Fixture(ResetOf(fixts[i], true))) }

  /** Of a green stack every fixture is reset, bottom to top, up to and including the first whose Reset fails;
      of a red stack none. */
  ghost predicate CalledResets(before: seq<Slot>, after: seq<Slot>, e0: seq<Event>, e1: seq<Event>) {
    var fixts := NamesOf(before);
    if StatusOf(before) != Green then e1 == e0
    else if after == before then e1 == e0 + Resets(fixts)
    else exists i :: 0 <= i < |before| && after == before[i := before[i].(status := Yellow)] &&
                     e1 == e0 + Resets(fixts[..i]) + [Fixture(ResetOf(fixts[i], false))]
  }

  /** What serving requests adds to the history of a stack with a parent stack, as long as no fixture fails to reset. */
  ghost function Trace(green: bool, fixts: seq<string>, requests: seq<Request>): seq<Event> {
    if requests == [] then []
    else
      Trace(green, fixts, requests[..|requests| - 1]) +
      (match requests[|requests| - 1]
       case ResetStack => if green then [Parent(Green)] + Resets(fixts) else []
       case SetDirtyTo(to) => if to then [Dirtied] else [])
  }

  /** The dirty flag is that of the last request; a reset clears it. */
  ghost predicate FlagAfter(before: bool, requests: seq<Request>) {
    if requests == [] then before else requests[|requests| - 1] == SetDirtyTo(true)
  }

  /** What a Reset of a green stack with a parent stack did. */
  ghost predicate CalledAllResets(before: Fixtures, after: Fixtures, e0: seq<Event>, e1: seq<Event>) {
    if after.parent == Green then CalledResets(before.slots, after.slots, e0 + [Parent(Green)], e1)
    else e1 == e0 + [Parent(Yellow)] && after.slots == before.slots
  }

  /** The first n requests were served: all of them, or those up to and including the first reset that failed. */
  ghost predicate ServedFirst(requests: seq<Request>, n: nat, before: Fixtures, after: Fixtures, e0: seq<Event>, e1: seq<Event>) {
    var green, fixts := before.Status() == Green, before.Names();
    if after.Status() == Yellow then
      0 < n <= |requests| && requests[n - 1] == ResetStack && green &&
      CalledAllResets(before, after, e0 + Trace(green, fixts, requests[..n - 1]), e1)
    else n == |requests| && after == before && e1 == e0 + Trace(green, fixts, requests)
  }

  ghost predicate ServedOne(request: Request, f1: Fixtures, f2: Fixtures, e1: seq<Event>, e2: seq<Event>) {
    match request
    case SetDirtyTo(to) => f2 == f1 && e2 == if to then e1 + [Dirtied] else e1
    case ResetStack => if f1.Status() != Green then e2 == e1 else CalledAllResets(f1, f2, e1, e2)
  }

  lemma NoneServed(requests: seq<Request>, f: Fixtures, e: seq<Event>)
    requires f.Status() != Yellow
    ensures ServedFirst(requests[..0], 0, f, f, e, e)
  {
    assert requests[..0] == [];
  }

  lemma ServedNext(requests: seq<Request>, n: nat, f0: Fixtures, f1: Fixtures, f2: Fixtures, e0: seq<Event>, e1: seq<Event>, e2: seq<Event>, steady: bool)
    requires n < |requests| && ServedFirst(requests[..n], n, f0, f1, e0, e1) && f1.Status() != Yellow
    requires Disciplined(f1.slots) && Worsened(steady, f1, f2)
    requires ServedOne(requests[n], f1, f2, e1, e2)
    ensures ServedFirst(requests[..n + 1], n + 1, f0, f2, e0, e2)
  {
    hide StatusOf, Worsened, Disciplined, NamesOf;
    WorsenedFacts(steady, f1, f2);
    var next := requests[..n + 1];
    assert next[..n] == requests[..n] && next[n] == requests[n];
  }

  lemma ServedAll(requests: seq<Request>, n: nat, f0: Fixtures, f1: Fixtures, e0: seq<Event>, e1: seq<Event>)
    requires n <= |requests| && ServedFirst(requests[..n], n, f0, f1, e0, e1) && (n < |requests| ==> f1.Status() == Yellow)
    ensures ServedFirst(requests, n, f0, f1, e0, e1)
  {
    if n == |requests| {
      assert requests[..n] == requests;
    } else {
      assert requests[..n][..n - 1] == requests[..n - 1];
    }
  }

  class FixtureStack {
    /** User code never ignores its timeouts, and no directory or network operation fails. */
    const faultless: bool
    /** No fixture, here or in the parent stack, fails to reset. */
    const steady: bool
    /** Whether the stack has a parent stack in another bundle. */
    const combined: bool
    /** Status of the parent stack as of its last Reset. */
    var parent: Status
    /** Fixtures on the current path of the tree, root to leaf. */
    var slots: seq<Slot>
    var dirty: bool
    /** What the dirty flag was after the last run of external tests. */
    ghost var externalDirty: bool
    /** Where the calls of fixture methods go, and what the parent stack reports. */
    const out: Output

    /** The history agrees with the stack: exactly the fixtures that are not red are set up, and the SetUp of the lowest
        red one has just failed. */
    ghost predicate Valid() reads this, out {
      (!combined ==> parent == Green) && (parent != Green ==> StatusOf(slots) != Yellow) && Disciplined(slots) &&
      out.Valid() && SetUpNow(out.events) == Live(slots) && (combined ==> parent == LastParent(out.events)) &&
      HasParent(out.events) == combined &&
      (StatusOf(slots) == Red ==> StuckOn(out.events, NamesOf(slots)))
    }

    /** Nothing has failed that must end the run. */
    ghost predicate Ready() reads this, out { Valid() && !Failed(out.events) }

    /** Unless the stack is red, the fixtures below the lowest one that is not green are fresh, and so is the parent stack
        if it is green. */
    ghost predicate Rested() reads this`parent, this`slots, out {
      parent == Green && StatusOf(slots) != Red ==> RestedOn(out.events, slots) && (combined ==> ParentFresh(out.events))
    }

    ghost function Fixts(): Fixtures reads this { Fixtures(parent, slots) }

    function Status(): Status reads this { if parent != Green then parent else StatusOf(slots) }

    constructor (faultless: bool, steady: bool, combined: bool, parent: Status, out: Output)
      requires (if combined then parent == LastParent(out.events) else parent == Green) && HasParent(out.events) == combined
      requires out.Valid() && SetUpNow(out.events) == []
      ensures Valid() && this.faultless == faultless && this.steady == steady && this.combined == combined && this.parent == parent
      ensures this.out == out && slots == [] && !dirty && !externalDirty
      ensures combined && parent == Green ==> (Rested() <==> ParentFresh(out.events))
      ensures !combined || parent != Green ==> Rested()
    {
      this.faultless, this.steady, this.combined, this.parent, this.out := faultless, steady, combined, parent, out;
      slots, dirty, externalDirty := [], false, false;
    }

    /** Enters what happens to a test into the history. */
    method Tell(e: Event)
      requires Valid() && MayFollow(out.events, e) && !e.Fixture? && !e.NewStack? && !e.Parent? && !e.Failure?
      modifies out
      ensures Valid() && out.events == old(out.events) + [e] && SameFixtures(old(out.events), out.events)
      ensures forall f :: Tally(out.events, f) == Tally(old(out.events), f) + Delivers(e, f)
      ensures (Failed(out.events) <==> Failed(old(out.events))) && (!Uses(e) && old(Rested()) ==> Rested())
    {
      hide Tally, LastParent, StuckOn, Failed, HasParent, Fresh, ParentFresh, SetUpNow, Live, Disciplined, StatusOf,
           NamesOf, Delivers, MayFollow, RestedOn;
      out.Emit(e);
      if !Uses(e) && RestedOn(old(out.events), slots) { RestedStays(old(out.events), out.events, slots); }
    }

    /** Enters a failure into the history. */
    method Fail() returns (err: Err)
      requires Valid() && !Failed(out.events)
      modifies out
      ensures Valid() && err == Abandoned && Failed(out.events) && out.events == old(out.events) + [Failure]
      ensures SameTally(old(out.events), out.events) && SameFixtures(old(out.events), out.events)
      ensures forall fixt :: Fresh(old(out.events), fixt) ==> Fresh(out.events, fixt)
      ensures ParentFresh(out.events) <==> ParentFresh(old(out.events))
    {
      hide Tally, LastParent, StuckOn, Failed, HasParent, Fresh, ParentFresh, SetUpNow, Live, Disciplined, StatusOf,
           NamesOf;
      out.EmitQuietly(Failure);
      return Abandoned;
    }

    /** Enters a call of a fixture method into the history. */
    method Record(c: Call)
      requires out.Valid() && !Failed(out.events)
      requires c.ResetOf? ==> c.fixt in SetUpNow(out.events)
      requires c.TearDown? ==> SetUpNow(out.events) != [] && SetUpNow(out.events)[|SetUpNow(out.events)| - 1] == c.fixt
      modifies out
      ensures out.Valid() && out.events == old(out.events) + [Fixture(c)] && SameTally(old(out.events), out.events)
      ensures LastParent(out.events) == LastParent(old(out.events)) && HasParent(out.events) == HasParent(old(out.events)) && !Failed(out.events)
      ensures ParentFresh(out.events) <==> ParentFresh(old(out.events))
      ensures forall fixt :: Fresh(old(out.events), fixt) ==> Fresh(out.events, fixt)
      ensures !c.TearDown? && c.ok ==> Fresh(out.events, c.fixt)
      ensures c.SetUp? && !c.ok ==> StuckOn(out.events, SetUpNow(old(out.events)) + [c.fixt])
      ensures SetUpNow(out.events) ==
        if c.SetUp? && c.ok then SetUpNow(old(out.events)) + [c.fixt]
        else if c.TearDown? then SetUpNow(old(out.events))[..|SetUpNow(old(out.events))| - 1]
        else SetUpNow(old(out.events))
    {
      hide SetUpNow, LastParent, StuckOn, Failed, HasParent, Fresh, ParentFresh, Tally;
      out.EmitQuietly(Fixture(c));
    }

    /** Adds a fixture; SetUp runs only if the fixtures of this bundle are green, whatever the parent is. */
    method Push(fixt: string) returns (err: Err)
      requires Ready()
      modifies this`slots, out
      ensures Valid() && (err == Abandoned ==> !faultless) && (err == Abandoned <==> Failed(out.events))
      ensures SameTally(old(out.events), out.events)
      ensures err == Bug <==> StatusOf(old(slots)) == Yellow
      ensures err == NoErr ==>
        |slots| == |old(slots)| + 1 && slots == old(slots) + [slots[|old(slots)|]] &&
        slots[|old(slots)|].fixt == fixt && slots[|old(slots)|].status != Yellow &&
        (if StatusOf(old(slots)) == Red then slots[|old(slots)|].status == Red && out.events == old(out.events)
         else out.events == old(out.events) + [Fixture(SetUp(fixt, slots[|old(slots)|].status == Green))])
      ensures err == NoErr ==>
        NamesOf(slots) == NamesOf(old(slots)) + [fixt] && (old(Status()) != Yellow ==> Status() != Yellow)
      ensures err == NoErr && old(Rested()) ==> Rested()
    {
      hide Output.Valid, Tally, LastParent, StuckOn, Failed, HasParent, Fresh, ParentFresh, SetUpNow, Live, Disciplined,
           StatusOf, NamesOf;
      var status := StatusOf(slots);
      if status == Yellow {
        return Bug;
      }
      var outDirFails := Fault(faultless);
      if outDirFails {
        err := Fail();
        return;
      }
      ghost var below := slots;
      PushedFacts(parent, below, Slot(fixt, Red));
      StuckBelow(out.events, NamesOf(below), fixt);
      slots := slots + [Slot(fixt, Red)];
      if status == Green {
        AllLive(below);
        var setUpHangs := Fault(faultless);
        if setUpHangs {
          Record(SetUp(fixt, false));
          err := Fail();
          return;
        }
        var setUpSucceeds: bool := *;
        Record(SetUp(fixt, setUpSucceeds));
        if setUpSucceeds {
          PushedFacts(parent, below, Slot(fixt, Green));
          slots := slots[|slots| - 1 := Slot(fixt, Green)];
          assert slots == below + [Slot(fixt, Green)];
          if old(Rested()) && parent == Green {
            RestedStays(old(out.events), out.events, below);
            RestedNext(out.events, below, Slot(fixt, Green));
          }
        }
      }
      return NoErr;
    }

    /** Removes the top fixture; TearDown runs unless the fixture is red. */
    method Pop() returns (err: Err)
      requires Ready() && slots != []
      modifies this`slots, out
      ensures Valid() && err != Bug && (err == Abandoned ==> !faultless) && (err == Abandoned <==> Failed(out.events))
      ensures SameTally(old(out.events), out.events)
      ensures slots == old(slots)[..|old(slots)| - 1]
      ensures old(Status()) != Red && old(Rested()) ==> Rested()
      ensures var f := old(slots)[|old(slots)| - 1];
        out.events == if f.status == Red then old(out.events)
                      else if err == NoErr then old(out.events) + [Fixture(TearDown(f.fixt))]
                      else old(out.events) + [Fixture(TearDown(f.fixt)), Failure]
    {
      hide Output.Valid, Tally, LastParent, StuckOn, Failed, HasParent, Fresh, ParentFresh, SetUpNow, Live, Disciplined,
           StatusOf, NamesOf;
      var f := slots[|slots| - 1];
      slots := slots[..|slots| - 1];
      assert old(slots) == slots + [f];
      PoppedFacts(slots, f);
      StuckBelow(out.events, NamesOf(slots), f.fixt);
      RestedNext(out.events, slots, f);
      if f.status != Red {
        Record(TearDown(f.fixt));
        if RestedOn(old(out.events), slots) { RestedStays(old(out.events), out.events, slots); }
        var tearDownHangs := Fault(faultless);
        if tearDownHangs {
          ghost var e1 := out.events;
          err := Fail();
          if RestedOn(e1, slots) { RestedStays(e1, out.events, slots); }
          return;
        }
      }
      return NoErr;
    }

    /** InternalStack.Reset. */
    method ResetInternal() returns (err: Err)
      requires Ready() && parent == Green
      modifies this`slots, this`dirty, out
      ensures Valid() && !dirty && (err == Abandoned ==> !faultless) && (err == Abandoned <==> Failed(out.events))
      ensures SameTally(old(out.events), out.events)
      ensures err == Bug <==> StatusOf(old(slots)) == Yellow
      ensures LastParent(out.events) == LastParent(old(out.events))
      ensures err == NoErr ==> Worsened(steady, Fixtures(Green, old(slots)), Fixtures(Green, slots))
      ensures err == NoErr ==> CalledResets(old(slots), slots, old(out.events), out.events)
      ensures err == NoErr && StatusOf(slots) != Red ==> RestedOn(out.events, slots)
      ensures ParentFresh(out.events) <==> ParentFresh(old(out.events))
    {
      hide Output.Valid, Tally, LastParent, StuckOn, Failed, HasParent, Fresh, ParentFresh, SetUpNow, Live, Disciplined,
           StatusOf, Worsened;
      dirty := false;
      WorsenedNothing(steady, Fixtures(Green, slots));
      match StatusOf(slots) {
        case Green =>
        case Red => return NoErr;
        case Yellow => return Bug;
      }
      AllLive(slots);
      ghost var fixts := NamesOf(slots);
      assert Resets(fixts[..0]) == [];
      for i := 0 to |slots|
        invariant slots == old(slots) && !dirty && Ready() && SameTally(old(out.events), out.events)
        invariant out.events == old(out.events) + Resets(fixts[..i]) && LastParent(out.events) == LastParent(old(out.events))
        invariant (forall j :: 0 <= j < i ==> Fresh(out.events, slots[j].fixt)) && (ParentFresh(out.events) <==> ParentFresh(old(out.events)))
      {
        assert slots[i].fixt == fixts[i] && fixts[i] in fixts;
        var resetHangs := Fault(faultless);
        if resetHangs {
          Record(ResetOf(slots[i].fixt, false));
          err := Fail();
          return;
        }
        var succeeds: bool := *;
        succeeds := succeeds || steady;
        Record(ResetOf(slots[i].fixt, succeeds));
        if !succeeds {
          ResetFails(slots, i);
          slots := slots[i := slots[i].(status := Yellow)];
          assert slots[i] != old(slots)[i];
          RestedUpTo(out.events, slots, i);
          return NoErr;
        }
        ResetsNext(fixts, i);
      }
      assert fixts[..|slots|] == fixts;
      RestedUpTo(out.events, slots, |slots|);
      return NoErr;
    }

    /** Resets all fixtures bottom to top, first the parent stack, if the stack is green.  A parent
        stack that was green answers green or yellow: its server runs this same method. */
    method Reset() returns (err: Err)
      requires Ready()
      modifies this`parent, this`slots, this`dirty, out
      ensures Valid() && (err == Abandoned ==> !faultless) && (err == Abandoned <==> Failed(out.events))
      ensures SameTally(old(out.events), out.events)
      ensures err == Bug ==> old(Status()) == Yellow
      ensures !combined ==> LastParent(out.events) == LastParent(old(out.events))
      ensures old(Status()) == Yellow ==> err != NoErr
      ensures err == NoErr ==> !dirty && Rested() && Worsened(steady, old(Fixts()), Fixts())
      ensures err == NoErr ==>
        if old(Status()) != Green then out.events == old(out.events)
        else if !combined then CalledResets(old(slots), slots, old(out.events), out.events)
        else if parent == Green then CalledResets(old(slots), slots, old(out.events) + [Parent(Green)], out.events)
        else out.events == old(out.events) + [Parent(Yellow)] && slots == old(slots)
    {
      hide Output.Valid, Tally, LastParent, StuckOn, Failed, HasParent, Fresh, ParentFresh, SetUpNow, Live, Disciplined,
           StatusOf, Worsened;
      WorsenedNothing(steady, Fixts());
      if !combined {
        err := ResetInternal();
        return;
      }
      err := SetDirty(false);
      if err != NoErr {
        return;
      }
      match Status() {
        case Green =>
        case Red => return NoErr;
        case Yellow => return Bug;
      }
      var unreachable := Fault(faultless);
      if unreachable {
        err := Fail();
        return;
      }
      var parentFails: bool := *;
      if parentFails && !steady {
        out.EmitQuietly(Parent(Yellow));
        ParentFails(slots);
        parent := Yellow;
        return NoErr;
      }
      out.EmitQuietly(Parent(Green));
      err := ResetInternal();
    }

    /** CombinedStack.SetDirty, which first tells the parent stack. */
    method SetDirty(to: bool) returns (err: Err)
      requires Ready()
      modifies this`dirty, out
      ensures Valid() && err != Bug && (err == Abandoned ==> !faultless)
      ensures dirty == if err == NoErr then to else old(dirty)
      ensures out.events == (if err == NoErr then old(out.events) else old(out.events) + [Failure]) && (err == Abandoned <==> Failed(out.events))
      ensures SameTally(old(out.events), out.events) && SameFixtures(old(out.events), out.events)
    {
      hide Output.Valid, Tally, LastParent, StuckOn, Failed, HasParent, Fresh, ParentFresh, SetUpNow, Live, Disciplined,
           StatusOf, NamesOf;
      var unreachable := Fault(faultless);
      if unreachable {
        err := Fail();
        return;
      }
      dirty := to;
      return NoErr;
    }

    /** Marks the stack dirty.  A combined stack asks the parent and ignores the error of its own
        MarkDirty, so only a stack without a parent rejects a second call. */
    method MarkDirty() returns (err: Err)
      requires Ready()
      modifies this`dirty, out
      ensures Valid() && (err == Bug <==> !combined && old(dirty))
      ensures out.events == (if err == Abandoned then old(out.events) + [Failure] else old(out.events)) && (err == Abandoned <==> Failed(out.events))
      ensures SameTally(old(out.events), out.events) && SameFixtures(old(out.events), out.events)
      ensures err == Abandoned ==> !faultless
      ensures err == NoErr ==> dirty && (old(Rested()) ==> Rested())
      ensures err != NoErr ==> dirty == old(dirty)
    {
      if combined {
        err := SetDirty(true);
        return;
      }
      if dirty {
        return Bug;
      }
      dirty := true;
      return NoErr;
    }

    method ServeOne(request: Request) returns (err: Err)
      requires Ready() && combined && Status() != Yellow
      modifies this`parent, this`slots, this`dirty, out
      ensures Valid() && err != Bug && (err == Abandoned ==> !faultless) && (err == Abandoned <==> Failed(out.events))
      ensures SameTally(old(out.events), out.events)
      ensures err == NoErr ==> dirty == (request == SetDirtyTo(true)) && (Status() == Yellow ==> !dirty && Rested())
      ensures err == NoErr ==> Worsened(steady, old(Fixts()), Fixts()) && ServedOne(request, old(Fixts()), Fixts(), old(out.events), out.events)
    {
      hide Output.Valid, Tally, LastParent, StuckOn, Failed, HasParent, Fresh, ParentFresh, SetUpNow, Live, Disciplined,
           StatusOf, Worsened, RestedOn, CalledResets, NamesOf;
      WorsenedNothing(steady, Fixts());
      match request {
        case ResetStack =>
          err := Reset();
        case SetDirtyTo(to) =>
          err := SetDirty(to);
          if err == NoErr && to {
            out.EmitQuietly(Dirtied);
          }
      }
    }

    /** Serves the requests that an external bundle sends to this stack while its tests run, as far as they change it.
        The bundle, being a walk of the same kind, sends nothing more once the stack is yellow. */
    method ServeExternalBundle(requests: seq<Request>) returns (err: Err, served: nat)
      requires Ready() && combined && Status() != Yellow
      modifies this, out
      ensures Valid() && err != Bug && (err == Abandoned ==> !faultless) && (err == Abandoned <==> Failed(out.events))
      ensures SameTally(old(out.events), out.events)
      ensures err == NoErr ==> Worsened(steady, old(Fixts()), Fixts()) && (Status() == Yellow ==> !dirty && Rested())
      ensures err == NoErr ==> dirty == externalDirty && (dirty ==> old(dirty) || SetDirtyTo(true) in requests)
      ensures err == NoErr ==> ServedFirst(requests, served, old(Fixts()), Fixts(), old(out.events), out.events)
      ensures err == NoErr ==> dirty == FlagAfter(old(dirty), requests[..served])
    {
      hide Output.Valid, Tally, LastParent, StuckOn, Failed, HasParent, Fresh, ParentFresh, SetUpNow, Live, Disciplined,
           StatusOf, Worsened, RestedOn, CalledResets, ServedFirst, ServedOne, NamesOf;
      err, served := NoErr, 0;
      NoneServed(requests, Fixts(), out.events);
      WorsenedNothing(steady, Fixts());
      while served < |requests| && Status() != Yellow
        invariant served <= |requests| && Ready() && err == NoErr && SameTally(old(out.events), out.events)
        invariant Worsened(steady, old(Fixts()), Fixts())
        invariant Status() == Yellow ==> !dirty && Rested()
        invariant dirty ==> old(dirty) || SetDirtyTo(true) in requests
        invariant ServedFirst(requests[..served], served, old(Fixts()), Fixts(), old(out.events), out.events)
        invariant dirty == FlagAfter(old(dirty), requests[..served])
      {
        ghost var before, e1 := Fixts(), out.events;
        err := ServeOne(requests[served]);
        if err != NoErr {
          return;
        }
        WorsenedTransitive(steady, old(Fixts()), before, Fixts());
        ServedNext(requests, served, old(Fixts()), before, Fixts(), old(out.events), e1, out.events, steady);
        served := served + 1;
      }
      ServedAll(requests, served, old(Fixts()), Fixts(), old(out.events), out.events);
      externalDirty := dirty;
    }
  }

  /** SetUp looks only at the fixtures of this bundle: under a red parent stack it is called all the same. */
  method SetUpUnderRedParent(fixt: string) returns (err: Err, out: Output, ok: bool)
    ensures err == NoErr && out.events == [NewStack(true), Parent(Red), Fixture(SetUp(fixt, ok))]
  {
    out := new Output();
    out.EmitQuietly(NewStack(true));
    out.EmitQuietly(Parent(Red));
    var stack := new FixtureStack(true, true, true, Red, out);
    err := stack.Push(fixt);
    ok := stack.slots[0].status == Green;
  }
}

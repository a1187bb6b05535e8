/** The history of a run: what happens to tests and fixtures, in order. */
module Events {

  datatype Status = Red | Green | Yellow

  /** A call of a method of a fixture, and whether it reported no error. */
  datatype Call = SetUp(fixt: string, ok: bool) | ResetOf(fixt: string, ok: bool) | TearDown(fixt: string)

  /** Between its start and its end, a test is run (its function is called), gets the errors of a fixture on the stack, or is
      reported as skipped or orphaned.  Start records the fixtures on the stack at that moment, and whether the
      stack is clean.  External is the result of an external test that is kept, after as many attempts as it took, and
      the fixtures on the stack.  Dirtied is a request of another bundle to mark the stack dirty, which it sends before
      each of its tests.  NewStack is the making of a stack, with or without a parent stack, and Parent a status that
      the parent stack reports.  Failure is that user code has ignored its timeout, so that it may still be running, or that
      a directory or network operation has failed. */
  datatype Event =
    | Start(test: string, path: seq<string>, clean: bool)
    | Body(test: string)
    | FixtureErrors(test: string)
    | NotRun(test: string)
    | Error(test: string)
    | End(test: string)
    | External(test: string, path: seq<string>)
    | Dirtied
    | Fixture(call: Call)
    | NewStack(hasParent: bool)
    | Parent(status: Status)
    | Failure

  // ----- Fixtures -----

  /** The fixtures that are set up after an event, given those before it: a SetUp without error adds one, TearDown
      removes the last. */
  function SetUpAfter(before: seq<string>, e: Event): seq<string> {
    if e.Fixture? && e.call.SetUp? && e.call.ok then before + [e.call.fixt]
    else if e.Fixture? && e.call.TearDown? && before != [] then before[..|before| - 1]
    else before
  }

  function SetUpNow(events: seq<Event>): seq<string> {
    if events == [] then [] else SetUpAfter(SetUpNow(events[..|events| - 1]), events[|events| - 1])
  }

  /** The last status that the parent stack has reported. */
  function LastParent(events: seq<Event>): Status {
    if events == [] then Green
    else if events[|events| - 1].Parent? then events[|events| - 1].status
    else LastParent(events[..|events| - 1])
  }

  /** The last call of a fixture method is a SetUp of fixt that reported errors. */
  ghost predicate JustFailed(events: seq<Event>, fixt: string) {
    events != [] &&
    if events[|events| - 1].Fixture? then events[|events| - 1].call == SetUp(fixt, false)
    else JustFailed(events[..|events| - 1], fixt)
  }

  /** Of the fixtures path only the first few are set up, because the SetUp of the next one, the last call of all, has
      failed. */
  ghost predicate StuckOn(events: seq<Event>, path: seq<string>) {
    var now := SetUpNow(events);
    |now| < |path| && now == path[..|now|] && JustFailed(events, path[|now|])
  }

  /** Whether the current stack has a parent stack. */
  function HasParent(events: seq<Event>): bool {
    events != [] &&
    if events[|events| - 1].NewStack? then events[|events| - 1].hasParent else HasParent(events[..|events| - 1])
  }

  /** Something has failed that must end the run. */
  function Failed(events: seq<Event>): bool { events != [] && (events[|events| - 1].Failure? || Failed(events[..|events| - 1])) }

  /** What leaves fixtures in an unknown state: a test of this bundle or another. */
  predicate Uses(e: Event) { e.Body? || e.External? || e.Dirtied? }

  /** fixt has been set up or reset, without error, since the fixtures were last used. */
  ghost predicate Fresh(events: seq<Event>, fixt: string) {
    events != [] &&
    (events[|events| - 1] == Fixture(SetUp(fixt, true)) || events[|events| - 1] == Fixture(ResetOf(fixt, true)) ||
     (!Uses(events[|events| - 1]) && Fresh(events[..|events| - 1], fixt)))
  }

  /** The parent stack has reported that it is green since the fixtures were last used, and nothing else after that. */
  ghost predicate ParentFresh(events: seq<Event>) {
    events != [] &&
    if events[|events| - 1].Parent? then events[|events| - 1].status == Green
    else !Uses(events[|events| - 1]) && ParentFresh(events[..|events| - 1])
  }

  /** All fixtures that are set up are fresh, here and in the parent stack. */
  ghost predicate AllFresh(events: seq<Event>) {
    (forall i :: 0 <= i < |SetUpNow(events)| ==> Fresh(events, SetUpNow(events)[i])) && (HasParent(events) ==> ParentFresh(events))
  }

  /** Only fixtures that are set up are reset, and only the one that was set up last is torn down.  What happens to a
      test follows its start directly: its function is called only if exactly the fixtures on its path are set up,
      and, if it was started on a clean stack, all of them are fresh; it gets the errors of a fixture only if the
      SetUp of the first fixture on its path that is not set up has just failed, or the parent stack is red; and it is
      reported as skipped or orphaned only on no fixtures.  Only a parent stack that there is reports.  After a failure,
      the test at hand gets its error and its end, and nothing else happens. */
  ghost predicate MayFollow(events: seq<Event>, e: Event) {
    var now := SetUpNow(events);
    (e.Fixture? && e.call.ResetOf? ==> e.call.fixt in now) &&
    (e.Fixture? && e.call.TearDown? ==> now != [] && now[|now| - 1] == e.call.fixt) &&
    (e.Body? || e.FixtureErrors? || e.NotRun? ==>
      events != [] && events[|events| - 1].Start? && events[|events| - 1].test == e.test) &&
    (e.Body? ==> now == events[|events| - 1].path && (events[|events| - 1].clean ==> AllFresh(events))) &&
    (e.FixtureErrors? ==> StuckOn(events, events[|events| - 1].path) || (HasParent(events) && LastParent(events) == Red)) &&
    (e.NotRun? ==> events[|events| - 1].path == []) &&
    (e.Parent? ==> HasParent(events)) &&
    (Failed(events) ==> e.Error? || e.End?)
  }

  /** Every event may follow the ones before it. */
  ghost predicate Lawful(events: seq<Event>) {
    events == [] || (Lawful(events[..|events| - 1]) && MayFollow(events[..|events| - 1], events[|events| - 1]))
  }

  lemma Appended(events: seq<Event>, e: Event)
    ensures SetUpNow(events + [e]) == SetUpAfter(SetUpNow(events), e)
    ensures LastParent(events + [e]) == if e.Parent? then e.status else LastParent(events)
    ensures Lawful(events) && MayFollow(events, e) ==> Lawful(events + [e])
    ensures !e.Fixture? ==> forall path :: StuckOn(events + [e], path) <==> StuckOn(events, path)
    ensures e.Fixture? && e.call.SetUp? && !e.call.ok ==> StuckOn(events + [e], SetUpNow(events) + [e.call.fixt])
    ensures Failed(events + [e]) <==> e.Failure? || Failed(events)
    ensures HasParent(events + [e]) == if e.NewStack? then e.hasParent else HasParent(events)
    ensures !Uses(e) ==> forall fixt :: Fresh(events, fixt) ==> Fresh(events + [e], fixt)
    ensures e.Fixture? && !e.call.TearDown? && e.call.ok ==> Fresh(events + [e], e.call.fixt)
    ensures ParentFresh(events + [e]) <==> if e.Parent? then e.status == Green else !Uses(e) && ParentFresh(events)
  {
    assert (events + [e])[..|events|] == events;
  }

  /** Every event of a lawful history may follow the ones before it. */
  lemma {:induction false} LawfulAt(events: seq<Event>, i: nat)
    requires Lawful(events) && i < |events|
    ensures Lawful(events[..i]) && MayFollow(events[..i], events[i])
  {
    var last := |events| - 1;
    if i < last {
      LawfulAt(events[..last], i);
      assert events[..last][..i] == events[..i];
    }
  }

  /** After a failure no test is started, no test function is called and no fixture method. */
  lemma NothingAfterFailure(events: seq<Event>, i: nat, j: nat)
    requires Lawful(events) && i < j < |events| && events[i].Failure?
    ensures events[j].Error? || events[j].End?
  {
    LawfulAt(events, j);
    FailedSince(events[..j], i);
  }

  lemma {:induction false} FailedSince(events: seq<Event>, i: nat)
    requires i < |events| && events[i].Failure?
    ensures Failed(events)
  {
    if i < |events| - 1 { FailedSince(events[..|events| - 1], i); }
  }

  // ----- Counting -----

  /** What an event can deliver, counted by Delivers.  Ran: the function of a test was called, or it got the errors of a
      fixture.  Reported: it was reported as skipped or orphaned. */
  datatype Fact =
    | StartedOn(test: string, path: seq<string>, clean: bool)
    | Started(test: string)
    | Ended(test: string)
    | Ran(test: string)
    | Reported(test: string)
    | RanExternally(test: string, path: seq<string>)
    | RanElsewhere(test: string)

  /** What only external tests deliver. */
  ghost predicate OfExternal(f: Fact) { f.RanExternally? || f.RanElsewhere? }

  ghost function Delivers(e: Event, f: Fact): nat {
    match e
    case Start(t, path, clean) => if f == StartedOn(t, path, clean) || f == Started(t) then 1 else 0
    case Body(t) => if f == Ran(t) then 1 else 0
    case FixtureErrors(t) => if f == Ran(t) then 1 else 0
    case NotRun(t) => if f == Reported(t) then 1 else 0
    case End(t) => if f == Ended(t) then 1 else 0
    case External(t, path) => if f == RanExternally(t, path) || f == RanElsewhere(t) then 1 else 0
    case _ => 0
  }

  /** How often the events delivered f. */
  ghost function Tally(events: seq<Event>, f: Fact): nat {
    if events == [] then 0 else Tally(events[..|events| - 1], f) + Delivers(events[|events| - 1], f)
  }

  lemma TallyAppend(events: seq<Event>, e: Event, f: Fact)
    ensures Tally(events + [e], f) == Tally(events, f) + Delivers(e, f)
  {
    assert (events + [e])[..|events|] == events;
  }

  /** What an event delivers is counted. */
  lemma {:induction false} TallyAt(events: seq<Event>, i: nat, f: Fact)
    requires i < |events| && Delivers(events[i], f) > 0
    ensures Tally(events, f) > 0
  {
    var last := |events| - 1;
    if i < last { TallyAt(events[..last], i, f); }
  }

  /** Without a failed SetUp and a red parent stack, each run of a test is a call of its function. */
  lemma {:induction false} RunsAreCalls(events: seq<Event>, t: string)
    requires Lawful(events) && Parent(Red) !in events && forall g :: Fixture(SetUp(g, false)) !in events
    ensures Tally(events, Ran(t)) == multiset(events)[Body(t)]
  {
    if events != [] {
      var init, e := events[..|events| - 1], events[|events| - 1];
      assert events == init + [e];
      RunsAreCalls(init, t);
      if e == FixtureErrors(t) {
        RedWasReported(init);
        FailureWasCalled(init, init[|init| - 1].path[|SetUpNow(init)|]);
      }
    }
  }

  lemma {:induction false} RedWasReported(events: seq<Event>)
    ensures LastParent(events) == Red ==> Parent(Red) in events
  {
    if events != [] { RedWasReported(events[..|events| - 1]); }
  }

  lemma {:induction false} FailureWasCalled(events: seq<Event>, fixt: string)
    ensures JustFailed(events, fixt) ==> Fixture(SetUp(fixt, false)) in events
  {
    if events != [] { FailureWasCalled(events[..|events| - 1], fixt); }
  }

  /** Nothing was delivered in between. */
  ghost predicate SameTally(e0: seq<Event>, e1: seq<Event>) { forall f :: Tally(e1, f) == Tally(e0, f) }

  /** Nothing in between made a difference to the fixtures. */
  ghost predicate SameFixtures(e0: seq<Event>, e1: seq<Event>) {
    SetUpNow(e1) == SetUpNow(e0) && LastParent(e1) == LastParent(e0) && HasParent(e1) == HasParent(e0) &&
    forall path :: StuckOn(e1, path) <==> StuckOn(e0, path)
  }

  /** The output stream, and with it the history. */
  class Output {
    var events: seq<Event>

    ghost predicate Valid() reads this { Lawful(events) }

    constructor ()
      ensures Valid() && events == []
    {
      events := [];
    }

    method Emit(e: Event)
      requires Valid() && MayFollow(events, e)
      modifies this
      ensures Valid() && events == old(events) + [e]
      ensures forall f :: Tally(events, f) == Tally(old(events), f) + Delivers(e, f)
      ensures SetUpNow(events) == SetUpAfter(SetUpNow(old(events)), e)
      ensures LastParent(events) == if e.Parent? then e.status else LastParent(old(events))
      ensures !e.Fixture? ==> forall path :: StuckOn(events, path) <==> StuckOn(old(events), path)
      ensures e.Fixture? && e.call.SetUp? && !e.call.ok ==> StuckOn(events, SetUpNow(old(events)) + [e.call.fixt])
      ensures Failed(events) <==> e.Failure? || Failed(old(events))
      ensures HasParent(events) == if e.NewStack? then e.hasParent else HasParent(old(events))
      ensures !Uses(e) ==> forall fixt :: Fresh(old(events), fixt) ==> Fresh(events, fixt)
      ensures e.Fixture? && !e.call.TearDown? && e.call.ok ==> Fresh(events, e.call.fixt)
      ensures ParentFresh(events) <==> if e.Parent? then e.status == Green else !Uses(e) && ParentFresh(old(events))
    {
      hide Lawful, MayFollow, SetUpNow, LastParent, StuckOn, Failed, HasParent, Fresh, ParentFresh, Tally, Delivers;
      forall f ensures Tally(events + [e], f) == Tally(events, f) + Delivers(e, f) { TallyAppend(events, e, f); }
      Appended(events, e);
      events := events + [e];
    }

    /** Emits what delivers nothing. */
    method EmitQuietly(e: Event)
      requires Valid() && MayFollow(events, e) && (e.Fixture? || e.Parent? || e.NewStack? || e.Dirtied? || e.Error? || e.Failure?)
      modifies this
      ensures Valid() && events == old(events) + [e] && SameTally(old(events), events)
      ensures SetUpNow(events) == SetUpAfter(SetUpNow(old(events)), e)
      ensures LastParent(events) == if e.Parent? then e.status else LastParent(old(events))
      ensures !e.Fixture? ==> forall path :: StuckOn(events, path) <==> StuckOn(old(events), path)
      ensures e.Fixture? && e.call.SetUp? && !e.call.ok ==> StuckOn(events, SetUpNow(old(events)) + [e.call.fixt])
      ensures Failed(events) <==> e.Failure? || Failed(old(events))
      ensures HasParent(events) == if e.NewStack? then e.hasParent else HasParent(old(events))
      ensures !Uses(e) ==> forall fixt :: Fresh(old(events), fixt) ==> Fresh(events, fixt)
      ensures e.Fixture? && !e.call.TearDown? && e.call.ok ==> Fresh(events, e.call.fixt)
      ensures ParentFresh(events) <==> if e.Parent? then e.status == Green else !Uses(e) && ParentFresh(old(events))
    {
      hide Lawful, MayFollow, SetUpNow, LastParent, StuckOn, Failed, HasParent, Fresh, ParentFresh, Tally;
      Emit(e);
    }
  }
}

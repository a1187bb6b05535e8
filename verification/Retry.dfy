/** Running the tests of an external bundle: the per-test retry loop RunTestsWithRetry and the part of
    runExternalTests that turns its results into the list of tests that have not started. */
module Retry {

  /** One reported test result; failed means that it carries errors. */
  datatype Result = Result(name: string, failed: bool)

  /** What one attempt returns. */
  datatype Attempt = Attempt(results: seq<Result>, broken: bool)

  datatype RunErr = Success | NoTestRanInLastAttempt | AttemptFailed

  /** Attempts by number: runTestsOnce as a function of how often it was called and of the tests asked for. */
  type Bundle = (nat, seq<string>) -> Attempt

  ghost predicate OnlyFrom(ts: seq<string>, results: seq<Result>) {
    forall i :: 0 <= i < |results| ==> results[i].name in ts
  }

  /** The bundle reports only tests that it was asked to run. */
  ghost predicate Honest(once: Bundle) {
    forall k, ts :: OnlyFrom(ts, once(k, ts).results)
  }

  /** The bundle reports a test at most once per attempt. */
  ghost predicate OncePerAttempt(once: Bundle) {
    forall k, ts :: DistinctNames(once(k, ts).results)
  }

  /** Every attempt works and runs a test. */
  ghost predicate Lively(once: Bundle) {
    forall k, ts :: ts != [] ==> !once(k, ts).broken && once(k, ts).results != []
  }

  function Filter(names: seq<string>, keep: set<string>): (r: seq<string>)
    ensures forall t :: t in r <==> t in names && t in keep
    ensures |r| <= |names|
    ensures |r| == |names| ==> r == names
  {
    if names == [] then []
    else if names[0] in keep then [names[0]] + Filter(names[1..], keep)
    else Filter(names[1..], keep)
  }

  /** How many of the results are failures of t; passes of t. */
  function Failures(t: string, log: seq<Result>): nat {
    if log == [] then 0 else Failures(t, log[..|log| - 1]) + (if log[|log| - 1] == Result(t, true) then 1 else 0)
  }

  function Passes(t: string, log: seq<Result>): nat {
    if log == [] then 0 else Passes(t, log[..|log| - 1]) + (if log[|log| - 1] == Result(t, false) then 1 else 0)
  }

  /** The latest result about t, if any. */
  function Latest(t: string, log: seq<Result>): seq<Result> {
    if log == [] then []
    else if log[|log| - 1].name == t then [log[|log| - 1]]
    else Latest(t, log[..|log| - 1])
  }

  lemma Append(t: string, log: seq<Result>, r: Result)
    ensures Failures(t, log + [r]) == Failures(t, log) + (if r == Result(t, true) then 1 else 0)
    ensures Passes(t, log + [r]) == Passes(t, log) + (if r == Result(t, false) then 1 else 0)
    ensures Latest(t, log + [r]) == if r.name == t then [r] else Latest(t, log)
  {
    assert (log + [r])[..|log|] == log;
  }

  /** The promise kept for one test, in terms of everything that was reported about it (log) and what
      was kept of it, while it is still pending: only failures so far, each paid for from the budget,
      and nothing kept. */
  ghost predicate Pending(t: string, budget: nat, left: int, log: seq<Result>, kept: seq<Result>) {
    0 <= left && Failures(t, log) + left == budget && Passes(t, log) == 0 &&
    Failures(t, kept) + Passes(t, kept) == 0
  }

  /** The promise for a finished test: exactly one result is kept, which is the last one reported
      about it; it is a pass after at most budget failures, or failure number budget + 1. */
  ghost predicate Finished(t: string, budget: nat, log: seq<Result>, kept: seq<Result>) {
    Failures(t, kept) + Passes(t, kept) == 1 && Latest(t, kept) == Latest(t, log) &&
    (Passes(t, kept) == 1 ==> Passes(t, log) == 1 && Failures(t, log) <= budget) &&
    (Failures(t, kept) == 1 ==> Passes(t, log) == 0 && Failures(t, log) == budget + 1)
  }

  ghost function Budget(retryn: int): nat { if retryn < 0 then 0 else retryn }

  /** Attempts still possible: for every pending test its remaining retries and one more run. */
  ghost function Remaining(pending: set<string>, retries: map<string, int>): nat {
    if pending == {} then 0
    else
      var t :| t in pending;
      (if t in retries && retries[t] > 0 then retries[t] + 1 else 1) + Remaining(pending - {t}, retries)
  }

  lemma {:induction false} RemainingAt(pending: set<string>, retries: map<string, int>, t: string)
    requires t in pending
    ensures Remaining(pending, retries) ==
      (if t in retries && retries[t] > 0 then retries[t] + 1 else 1) + Remaining(pending - {t}, retries)
  {
    var u :| u in pending && Remaining(pending, retries) ==
      (if u in retries && retries[u] > 0 then retries[u] + 1 else 1) + Remaining(pending - {u}, retries);
    if u != t {
      RemainingAt(pending - {u}, retries, t);
      RemainingAt(pending - {t}, retries, u);
      assert pending - {u} - {t} == pending - {t} - {u};
    }
  }

  lemma {:induction false} RemainingIgnores(pending: set<string>, retries: map<string, int>, t: string, n: int)
    requires t !in pending
    ensures Remaining(pending, retries[t := n]) == Remaining(pending, retries)
  {
    if pending != {} {
      var u :| u in pending;
      RemainingAt(pending, retries, u);
      RemainingAt(pending, retries[t := n], u);
      RemainingIgnores(pending - {u}, retries, t, n);
    }
  }

  lemma {:induction false} RemainingInitially(pending: set<string>, retries: map<string, int>, retryn: int)
    requires forall t :: t in pending ==> t in retries && retries[t] == retryn
    ensures Remaining(pending, retries) == |pending| * (Budget(retryn) + 1)
  {
    if pending != {} {
      var u :| u in pending;
      RemainingAt(pending, retries, u);
      RemainingInitially(pending - {u}, retries, retryn);
      assert |pending - {u}| == |pending| - 1;
    }
  }

  function Names(results: seq<Result>): set<string> { set r | r in results :: r.name }

  lemma NamesAppend(a: seq<Result>, b: seq<Result>)
    ensures Names(a + b) == Names(a) + Names(b)
  {
    assert forall r :: r in a + b <==> r in a || r in b;
  }

  lemma {:induction false} NoResult(t: string, log: seq<Result>)
    ensures Failures(t, log) + Passes(t, log) == 0 <==> t !in Names(log)
  {
    if log != [] {
      var r := log[|log| - 1];
      NoResult(t, log[..|log| - 1]);
      assert log == log[..|log| - 1] + [r];
      assert Names(log) == Names(log[..|log| - 1]) + {r.name};
      assert r == Result(r.name, true) || r == Result(r.name, false);
    }
  }

  /** Where a test stands between two results. */
  ghost predicate Standing(t: string, unstarted: set<string>, retries: map<string, int>, retryn: int,
                           log: seq<Result>, kept: seq<Result>)
  {
    if t in unstarted then
      t in retries && Pending(t, Budget(retryn), if retries[t] < 0 then 0 else retries[t], log, kept)
    else Finished(t, Budget(retryn), log, kept)
  }

  ghost predicate AllStanding(all: set<string>, unstarted: set<string>, retries: map<string, int>, retryn: int,
                              log: seq<Result>, kept: seq<Result>)
  {
    forall t :: t in all ==> Standing(t, unstarted, retries, retryn, log, kept)
  }

  ghost predicate DistinctNames(results: seq<Result>) {
    forall i, j :: 0 <= i < j < |results| ==> results[i].name != results[j].name
  }

  /** Keeping a result of a pending test finishes it; retrying it spends one retry. */
  lemma StandingStep(r: Result, all: set<string>, unstarted: set<string>, retries: map<string, int>, retryn: int,
                     log: seq<Result>, kept: seq<Result>)
    requires r.name in unstarted && unstarted <= all && r.name in retries
    requires AllStanding(all, unstarted, retries, retryn, log, kept)
    ensures if r.failed && retries[r.name] > 0
            then AllStanding(all, unstarted, retries[r.name := retries[r.name] - 1], retryn, log + [r], kept)
            else AllStanding(all, unstarted - {r.name}, retries, retryn, log + [r], kept + [r])
  {
    forall u | u in all
      ensures if r.failed && retries[r.name] > 0
              then Standing(u, unstarted, retries[r.name := retries[r.name] - 1], retryn, log + [r], kept)
              else Standing(u, unstarted - {r.name}, retries, retryn, log + [r], kept + [r])
    {
      hide Standing;
      assert Standing(u, unstarted, retries, retryn, log, kept);
      if u != r.name {
        StandingOther(r, u, unstarted, retries, retryn, log, kept);
      } else if r.failed && retries[u] > 0 {
        StandingRetry(r, unstarted, retries, retryn, log, kept);
      } else {
        StandingKeep(r, unstarted, retries, retryn, log, kept);
      }
    }
  }

  lemma StandingOther(r: Result, u: string, unstarted: set<string>, retries: map<string, int>, retryn: int, log: seq<Result>, kept: seq<Result>)
    requires u != r.name && r.name in retries && Standing(u, unstarted, retries, retryn, log, kept)
    ensures Standing(u, unstarted, retries[r.name := retries[r.name] - 1], retryn, log + [r], kept)
    ensures Standing(u, unstarted - {r.name}, retries, retryn, log + [r], kept + [r])
  {
    hide Failures, Passes, Latest;
    Append(u, log, r);
    Append(u, kept, r);
  }

  lemma StandingRetry(r: Result, unstarted: set<string>, retries: map<string, int>, retryn: int, log: seq<Result>, kept: seq<Result>)
    requires r.name in unstarted && r.name in retries && r.failed && retries[r.name] > 0
    requires Standing(r.name, unstarted, retries, retryn, log, kept)
    ensures Standing(r.name, unstarted, retries[r.name := retries[r.name] - 1], retryn, log + [r], kept)
  {
    hide Failures, Passes, Latest;
    Append(r.name, log, r);
    assert r == Result(r.name, true);
  }

  lemma StandingKeep(r: Result, unstarted: set<string>, retries: map<string, int>, retryn: int, log: seq<Result>, kept: seq<Result>)
    requires r.name in unstarted && r.name in retries && !(r.failed && retries[r.name] > 0)
    requires Standing(r.name, unstarted, retries, retryn, log, kept)
    ensures Standing(r.name, unstarted - {r.name}, retries, retryn, log + [r], kept + [r])
  {
    hide Failures, Passes, Latest;
    Append(r.name, log, r);
    Append(r.name, kept, r);
    assert r == Result(r.name, r.failed);
  }

  /** A failed result with retries left uses up a retry, any other result of the pending set a run. */
  lemma RemainingStep(r: Result, unstarted: set<string>, retries: map<string, int>)
    requires r.name in retries
    ensures var after := if r.failed && retries[r.name] > 0
                         then Remaining(unstarted, retries[r.name := retries[r.name] - 1])
                         else Remaining(unstarted - {r.name}, retries);
            if r.name in unstarted then after < Remaining(unstarted, retries) else after == Remaining(unstarted, retries)
  {
    var t := r.name;
    var n := retries[t] - 1;
    RemainingIgnores(unstarted - {t}, retries, t, n);
    if t in unstarted {
      RemainingAt(unstarted, retries, t);
      RemainingAt(unstarted, retries[t := n], t);
    } else {
      assert unstarted - {t} == unstarted;
    }
  }

  /** The loop over the results of one attempt: a failure with retries left is dropped, any other
      result is kept and its test is no longer pending. */
  method Absorb(results: seq<Result>, unstarted0: set<string>, retries0: map<string, int>, kept0: seq<Result>,
                retryn: int, ghost log: seq<Result>, ghost all: set<string>)
    returns (unstarted: set<string>, retries: map<string, int>, kept: seq<Result>)
    requires unstarted0 <= all <= retries0.Keys && all - unstarted0 <= Names(kept0) <= all
    requires forall i :: 0 <= i < |results| ==> results[i].name in unstarted0
    ensures unstarted <= unstarted0 && all <= retries.Keys && all - unstarted <= Names(kept) <= all
    ensures results != [] ==> Remaining(unstarted, retries) < Remaining(unstarted0, retries0)
    ensures DistinctNames(results) && AllStanding(all, unstarted0, retries0, retryn, log, kept0) ==>
      AllStanding(all, unstarted, retries, retryn, log + results, kept)
    ensures (forall t :: t in retries0 ==> retries0[t] <= 0) ==> retries == retries0 && kept == kept0 + results
  {
    unstarted, retries, kept := unstarted0, retries0, kept0;
    ghost var good := DistinctNames(results) && AllStanding(all, unstarted0, retries0, retryn, log, kept0);
    ghost var seen := log;
    for i := 0 to |results|
      invariant unstarted <= unstarted0 && all <= retries.Keys && all - unstarted <= Names(kept) <= all
      invariant i == 0 ==> unstarted == unstarted0 && retries == retries0
      invariant i > 0 ==> Remaining(unstarted, retries) < Remaining(unstarted0, retries0)
      invariant seen == log + results[..i]
      invariant (forall t :: t in retries0 ==> retries0[t] <= 0) ==> retries == retries0 && kept == kept0 + results[..i]
      invariant good ==> AllStanding(all, unstarted, retries, retryn, seen, kept)
      invariant good ==> forall j :: i <= j < |results| ==> results[j].name in unstarted
    {
      var r := results[i];
      RemainingStep(r, unstarted, retries);
      if good {
        StandingStep(r, all, unstarted, retries, retryn, seen, kept);
      }
      seen := seen + [r];
      if r.failed && retries[r.name] > 0 {
        retries := retries[r.name := retries[r.name] - 1];
      } else {
        NamesAppend(kept, [r]);
        kept := kept + [r];
        unstarted := unstarted - {r.name};
      }
    }
    assert results[..|results|] == results;
  }

  /** Every test either has its one kept result or nothing but failures within its budget. */
  ghost predicate Accounted(tests: seq<string>, budget: nat, log: seq<Result>, kept: seq<Result>) {
    forall t :: t in tests ==>
      if t in Names(kept) then Finished(t, budget, log, kept)
      else Failures(t, log) <= budget && Passes(t, log) == 0
  }

  lemma StandingAccounts(tests: seq<string>, all: set<string>, unstarted: set<string>, retries: map<string, int>,
                         retryn: int, log: seq<Result>, kept: seq<Result>)
    requires AllStanding(all, unstarted, retries, retryn, log, kept)
    requires forall t :: t in tests ==> t in all
    ensures Accounted(tests, Budget(retryn), log, kept)
  {
    forall t | t in tests
      ensures if t in Names(kept) then Finished(t, Budget(retryn), log, kept)
              else Failures(t, log) <= Budget(retryn) && Passes(t, log) == 0
    {
      NoResult(t, kept);
      assert Standing(t, unstarted, retries, retryn, log, kept);
    }
  }

  /** Before the first attempt every test is pending and has all its retries. */
  method FullBudget(allTests: seq<string>, retryn: int) returns (unstarted: set<string>, retries: map<string, int>)
    ensures unstarted == retries.Keys == set t | t in allTests
    ensures forall t :: t in retries ==> retries[t] == retryn
  {
    unstarted, retries := {}, map[];
    for i := 0 to |allTests|
      invariant unstarted == retries.Keys == set t | t in allTests[..i]
      invariant forall t :: t in retries ==> retries[t] == retryn
    {
      unstarted := unstarted + {allTests[i]};
      retries := retries[allTests[i] := retryn];
    }
    assert allTests[..|allTests|] == allTests;
  }

  /** Everything that the bundle reported in attempts with these lists of tests, in order. */
  ghost function Reported(once: Bundle, asked: seq<seq<string>>): seq<Result> {
    if asked == [] then []
    else Reported(once, asked[..|asked| - 1]) + once(|asked| - 1, asked[|asked| - 1]).results
  }

  lemma ReportedNext(once: Bundle, asked: seq<seq<string>>, tests: seq<string>)
    ensures Reported(once, asked + [tests]) == Reported(once, asked) + once(|asked|, tests).results
  {
    assert (asked + [tests])[..|asked|] == asked;
  }

  /** The first attempt works but runs nothing. */
  ghost predicate StartsEmpty(once: Bundle, tests: seq<string>) { !once(0, tests).broken && once(0, tests).results == [] }

  lemma {:induction false} FilterAll(names: seq<string>, keep: set<string>)
    requires forall t :: t in names ==> t in keep
    ensures Filter(names, keep) == names
  {
    if names != [] { FilterAll(names[1..], keep); }
  }

  ghost predicate EndsWith(all: seq<Result>, last: seq<Result>) { |all| >= |last| && all[|all| - |last|..] == last }

  /** RunTestsWithRetry.  attempts counts the calls of runTestsOnce; asked are the lists of tests given to those that
      did not fail as a whole, and log is everything reported by them, in order. */
  method RunTestsWithRetry(allTests: seq<string>, once: Bundle, retryn: int)
    returns (allResults: seq<Result>, err: RunErr, attempts: nat, ghost log: seq<Result>, ghost asked: seq<seq<string>>)
    requires Honest(once)
    ensures forall t :: t in Names(allResults) || t in Names(log) ==> t in allTests
    ensures attempts <= |set t | t in allTests| * (Budget(retryn) + 1) + (if allTests == [] then 1 else 0)
    ensures log == Reported(once, asked) && (asked != [] ==> asked[0] == allTests)
    ensures err == AttemptFailed ==> exists ts :: once(|asked|, ts).broken && EndsWith(allResults, once(|asked|, ts).results)
    ensures err == NoTestRanInLastAttempt ==> asked != [] && once(|asked| - 1, asked[|asked| - 1]).results == []
    ensures err == Success ==> forall t :: t in allTests ==> t in Names(allResults)
    ensures Lively(once) && allTests != [] ==> err == Success
    ensures err != AttemptFailed && OncePerAttempt(once) ==> Accounted(allTests, Budget(retryn), log, allResults)
    ensures err == NoTestRanInLastAttempt ==> (log == [] <==> StartsEmpty(once, allTests))
    ensures StartsEmpty(once, allTests) ==> err == NoTestRanInLastAttempt && allResults == []
    ensures err != AttemptFailed && retryn <= 0 ==> allResults == log
  {
    hide Honest, OncePerAttempt, Accounted, Remaining, Filter, DistinctNames, Reported, AllStanding, Names, OnlyFrom;
    allResults, log, asked, attempts := [], [], [], 0;
    var unstarted, retries := FullBudget(allTests, retryn);
    ghost var all := unstarted;
    NothingReported(once, all, retries, retryn);
    ghost var total := |all| * (Budget(retryn) + 1);
    RemainingInitially(all, retries, retryn);
    assert allTests != [] ==> allTests[0] in all;
    while true
      invariant all == (set t | t in allTests) && unstarted <= all <= retries.Keys
      invariant all - unstarted <= Names(allResults) <= all && Names(log) <= all
      invariant attempts + Remaining(unstarted, retries) <= total
      invariant unstarted == {} ==> attempts == 0 && all == {}
      invariant OncePerAttempt(once) ==> AllStanding(all, unstarted, retries, retryn, log, allResults)
      invariant |asked| == attempts && log == Reported(once, asked) && (asked != [] ==> asked[0] == allTests)
      invariant if attempts == 0 then unstarted == all && log == allResults == [] else log != [] && !StartsEmpty(once, allTests)
      invariant retryn <= 0 ==> allResults == log && forall t :: t in retries ==> retries[t] <= 0
      decreases Remaining(unstarted, retries)
    {
      var tests := Filter(allTests, unstarted);
      if attempts == 0 { FilterAll(allTests, unstarted); }
      var attempt := once(attempts, tests);
      HonestNames(once, attempts, tests, unstarted);
      assert allTests != [] ==> tests != [] by { if allTests != [] { var t :| t in unstarted; assert t in tests; } }
      if unstarted != {} { var t :| t in unstarted; RemainingAt(unstarted, retries, t); }
      attempts := attempts + 1;
      if attempt.broken {
        NamesAppend(allResults, attempt.results);
        allResults := allResults + attempt.results;
        assert EndsWith(allResults, attempt.results);
        err := AttemptFailed;
        return;
      }
      ReportedNext(once, asked, tests);
      asked := asked + [tests];
      if attempt.results == [] {
        assert log + attempt.results == log;
        if OncePerAttempt(once) { StandingAccounts(allTests, all, unstarted, retries, retryn, log, allResults); }
        err := NoTestRanInLastAttempt;
        return;
      }
      ghost var before := log;
      NamesAppend(before, attempt.results);
      log := log + attempt.results;
      unstarted, retries, allResults := Absorb(attempt.results, unstarted, retries, allResults, retryn, before, all);
      if unstarted == {} {
        if OncePerAttempt(once) { StandingAccounts(allTests, all, unstarted, retries, retryn, log, allResults); }
        err := Success;
        return;
      }
    }
  }

  lemma NothingReported(once: Bundle, all: set<string>, retries: map<string, int>, retryn: int)
    requires forall t :: t in all ==> t in retries && retries[t] == retryn
    ensures Reported(once, []) == [] && Names([]) == {} && AllStanding(all, all, retries, retryn, [], [])
  {
  }

  lemma HonestNames(once: Bundle, k: nat, ts: seq<string>, some: set<string>)
    requires Honest(once) && forall t :: t in ts ==> t in some
    ensures forall i :: 0 <= i < |once(k, ts).results| ==> once(k, ts).results[i].name in some
    ensures Names(once(k, ts).results) <= some
    ensures OncePerAttempt(once) ==> DistinctNames(once(k, ts).results)
  {
    assert OnlyFrom(ts, once(k, ts).results);
  }

  method StartedSet(results: seq<Result>) returns (startedSet: set<string>)
    ensures startedSet == Names(results)
  {
    startedSet := {};
    for i := 0 to |results|
      invariant startedSet == Names(results[..i])
    {
      NamesAppend(results[..i], [results[i]]);
      assert results[..i + 1] == results[..i] + [results[i]];
      startedSet := startedSet + {results[i].name};
    }
    assert results[..|results|] == results;
  }

  method Split(names: seq<string>, startedSet: set<string>) returns (unstarted: seq<string>, started: seq<string>)
    ensures multiset(started) + multiset(unstarted) == multiset(names)
    ensures forall t :: t in unstarted ==> t !in startedSet
    ensures forall t :: t in started ==> t in startedSet
    ensures (exists t :: t in names && t in startedSet) ==> |unstarted| < |names|
    ensures (forall t :: t in names ==> t in startedSet) ==> unstarted == []
  {
    unstarted, started := [], [];
    for i := 0 to |names|
      invariant multiset(started) + multiset(unstarted) == multiset(names[..i])
      invariant |started| + |unstarted| == i
      invariant forall t :: t in unstarted ==> t in names[..i] && t !in startedSet
      invariant forall t :: t in started ==> t in startedSet
      invariant started == [] ==> forall j :: 0 <= j < i ==> names[j] !in startedSet
    {
      assert names[..i + 1] == names[..i] + [names[i]];
      assert multiset(names[..i + 1]) == multiset(names[..i]) + multiset{names[i]};
      if names[i] !in startedSet {
        unstarted := unstarted + [names[i]];
      } else {
        started := started + [names[i]];
      }
    }
    assert names[..|names|] == names;
    assert unstarted != [] ==> unstarted[0] in unstarted;
  }

  /** A test that is through: it has passed within its budget, or has failed once more than that. */
  ghost predicate Through(t: string, budget: nat, log: seq<Result>) {
    if Passes(t, log) == 0 then Failures(t, log) == budget + 1 else Passes(t, log) == 1 && Failures(t, log) <= budget
  }

  /** A test that has had nothing but failures, each followed by a retry. */
  ghost predicate AwaitsRetry(t: string, budget: nat, log: seq<Result>) { Passes(t, log) == 0 && Failures(t, log) <= budget }

  /** The end of runExternalTests: what is returned for the results of RunLocalTests, whose error is inner.  When it
      returns no error, the tests split into those that have a kept result and the unstarted ones, and at least
      one has run; none is left if the inner run succeeded.  The error of an inner run whose last attempt was
      empty is passed on exactly if nothing was kept, that is, if every test still awaits a retry or its first run.  Without
      retries that happens exactly if the first attempt runs nothing. */
  method RunExternalTests(names: seq<string>, once: Bundle, retryn: int)
    returns (unstarted: seq<string>, started: seq<string>, err: RunErr,
             ghost inner: RunErr, ghost log: seq<Result>, ghost asked: seq<seq<string>>)
    requires Honest(once)
    ensures err == Success ==> multiset(started) + multiset(unstarted) == multiset(names)
    ensures err == Success && names != [] ==> |unstarted| < |names|
    ensures err == Success ==> forall t :: t in started ==> t !in unstarted
    ensures inner == Success ==> err == Success && unstarted == []
    ensures inner == AttemptFailed ==> err == AttemptFailed && exists ts :: once(|asked|, ts).broken
    ensures inner == NoTestRanInLastAttempt ==> err != AttemptFailed && asked != [] && once(|asked| - 1, asked[|asked| - 1]).results == []
    ensures Lively(once) && names != [] ==> inner == Success
    ensures log == Reported(once, asked) && (asked != [] ==> asked[0] == names)
    ensures OncePerAttempt(once) && inner == Success ==> forall t :: t in names ==> Through(t, Budget(retryn), log)
    ensures OncePerAttempt(once) && inner == NoTestRanInLastAttempt ==>
      (err == NoTestRanInLastAttempt <==> forall t :: t in names ==> AwaitsRetry(t, Budget(retryn), log))
    ensures retryn <= 0 ==> (err == NoTestRanInLastAttempt <==> StartsEmpty(once, names))
  {
    hide Reported, Finished;
    var results, runErr, _, l, a := RunTestsWithRetry(names, once, retryn);
    inner, log, asked := runErr, l, a;
    if OncePerAttempt(once) && runErr != AttemptFailed { AccountedMeans(names, Budget(retryn), log, results); }
    if runErr == NoTestRanInLastAttempt {
      if results == [] {
        err := runErr;
        unstarted, started := [], [];
        return;
      }
      assert results[0].name in Names(results);
    } else if runErr != Success {
      err := runErr;
      unstarted, started := [], [];
      return;
    }
    var startedSet := StartedSet(results);
    unstarted, started := Split(names, startedSet);
    err := Success;
  }

  lemma AccountedMeans(names: seq<string>, budget: nat, log: seq<Result>, kept: seq<Result>)
    requires Accounted(names, budget, log, kept)
    ensures forall t :: t in names ==> if t in Names(kept) then Through(t, budget, log) else AwaitsRetry(t, budget, log)
  {
  }

  /** A run that ends like that: with one retry, the one test fails, and the second attempt runs nothing. */
  method RetriedFailureEndsRun() returns (err: RunErr, ghost log: seq<Result>)
    ensures err == NoTestRanInLastAttempt && log == [Result("t", true)]
  {
    var once: Bundle := (k, ts) => Attempt(if k == 0 && "t" in ts then [Result("t", true)] else [], false);
    var unstarted, started, e, inner, l, asked := RunExternalTests(["t"], once, 1);
    err, log := e, l;
    OnlyFirst(once, asked);
    assert "t" in ["t"];
  }

  lemma {:induction false} OnlyFirst(once: Bundle, asked: seq<seq<string>>)
    requires forall k, ts :: once(k, ts) == Attempt(if k == 0 && "t" in ts then [Result("t", true)] else [], false)
    ensures Reported(once, asked) == if asked != [] && "t" in asked[0] then [Result("t", true)] else []
    ensures Passes("t", Reported(once, asked)) == 0 && Failures("t", Reported(once, asked)) <= 1
  {
    if asked != [] {
      var init := asked[..|asked| - 1];
      OnlyFirst(once, init);
      Append("t", [], Result("t", true));
      assert [] + [Result("t", true)] == [Result("t", true)];
    }
  }
}

/** doAsync as a step system: the calling goroutine, the one that runs body, and the cancellation of ctx. */
module DoAsync {

  datatype Err = Nil | Failed | Cancelled

  /** The caller: checks ctx first, then waits for body or ctx, then sends the result, then waits for
      the goroutine or ctx, then has returned. */
  datatype Caller = Poll | Select | SendRet | Linger | Returned

  /** The goroutine: runs body, sends its result, waits for the result of doAsync, cleans up, has finished. */
  datatype Worker = InBody | SendBody | AwaitRet | InClean | Finished

  datatype State = State(
    hasClean: bool, cancelled: bool,
    caller: Caller, worker: Worker,
    bodyCh: seq<Err>, retCh: seq<Err>,
    body: Err, ret: Err,
    // histories, for the specification
    cancelledAtPoll: bool, bodyRuns: nat, cleanRuns: nat)

  function Init(hasClean: bool, cancelled: bool): State {
    State(hasClean, cancelled, Poll, InBody, [], [], Nil, Nil, false, 0, 0)
  }

  datatype Step =
    | Cancel
    | BodyReturns(err: Err)
    | BodySent
    | PollCancelled
    | PollOpen
    | SelectBody
    | SelectCancelled
    | RetSent
    | LingerDone
    | LingerCancelled
    | RetReceived
    | CleanReturns

  predicate Enabled(s: State, step: Step) {
    match step
    case Cancel => !s.cancelled
    case BodyReturns(err) => s.worker == InBody && err != Cancelled
    case BodySent => s.worker == SendBody && s.bodyCh == []
    case PollCancelled => s.caller == Poll && s.cancelled
    case PollOpen => s.caller == Poll && !s.cancelled
    case SelectBody => s.caller == Select && s.bodyCh != []
    case SelectCancelled => s.caller == Select && s.cancelled
    case RetSent => s.caller == SendRet && s.retCh == []
    case LingerDone => s.caller == Linger && s.worker == Finished
    case LingerCancelled => s.caller == Linger && s.cancelled
    case RetReceived => s.worker == AwaitRet && s.retCh != []
    case CleanReturns => s.worker == InClean
  }

  function Apply(s: State, step: Step): State
    requires Enabled(s, step)
  {
    match step
    case Cancel => s.(cancelled := true)
    case BodyReturns(err) => s.(worker := SendBody, body := err, bodyRuns := s.bodyRuns + 1)
    case BodySent => s.(worker := AwaitRet, bodyCh := [s.body])
    case PollCancelled => s.(caller := SendRet, ret := Cancelled, cancelledAtPoll := true)
    case PollOpen => s.(caller := Select)
    case SelectBody => s.(caller := SendRet, ret := s.bodyCh[0], bodyCh := [])
    case SelectCancelled => s.(caller := SendRet, ret := Cancelled)
    case RetSent => s.(caller := Linger, retCh := [s.ret])
    case LingerDone => s.(caller := Returned)
    case LingerCancelled => s.(caller := Returned)
    case RetReceived => s.(worker := if s.retCh[0] != Nil && s.hasClean then InClean else Finished, retCh := [])
    case CleanReturns => s.(worker := Finished, cleanRuns := s.cleanRuns + 1)
  }

  ghost predicate Run(r: State, steps: seq<Step>, s: State)
    decreases |steps|
  {
    if steps == [] then s == r else Enabled(r, steps[0]) && Run(Apply(r, steps[0]), steps[1..], s)
  }

  ghost predicate Decided(s: State) { s.caller != Poll && s.caller != Select }

  ghost predicate Inv(s: State) {
    // the channels hold what the program counters say
    |s.bodyCh| <= 1 && |s.retCh| <= 1 &&
    (s.worker == InBody || s.worker == SendBody ==> s.bodyCh == []) &&
    (s.bodyCh != [] ==> s.bodyCh == [s.body]) &&
    (s.caller == Poll || s.caller == Select ==> s.ret == Nil && (s.worker == AwaitRet ==> s.bodyCh == [s.body])) &&
    (s.retCh != [] <==> (s.caller == Linger || s.caller == Returned) && (s.worker == InBody || s.worker == SendBody || s.worker == AwaitRet)) &&
    (s.retCh != [] ==> s.retCh == [s.ret]) &&
    (s.worker == InClean || s.worker == Finished ==> s.caller == Linger || s.caller == Returned) &&
    // what has happened
    s.bodyRuns == (if s.worker == InBody then 0 else 1) && s.body != Cancelled &&
    s.cleanRuns == (if s.worker == Finished && s.ret != Nil && s.hasClean then 1 else 0) &&
    (s.worker == InClean ==> s.ret != Nil && s.hasClean) &&
    (Decided(s) ==> (s.ret == Cancelled && s.cancelled) || (s.ret == s.body && s.bodyRuns == 1)) &&
    (s.cancelledAtPoll ==> Decided(s) && s.ret == Cancelled) &&
    (s.caller == Returned ==> s.worker == Finished || s.cancelled)
  }

  lemma StepKeepsInv(s: State, step: Step)
    requires Inv(s) && Enabled(s, step)
    ensures Inv(Apply(s, step)) && Apply(s, step).hasClean == s.hasClean
  {
  }

  lemma {:induction false} RunKeepsInv(r: State, steps: seq<Step>, s: State)
    requires Inv(r) && Run(r, steps, s)
    ensures Inv(s) && s.hasClean == r.hasClean
    decreases |steps|
  {
    if steps != [] {
      StepKeepsInv(r, steps[0]);
      RunKeepsInv(Apply(r, steps[0]), steps[1..], s);
    }
  }

  /** body runs at most once, and has run when the goroutine is past it; clean runs at most once, only after
      body, and once the goroutine has finished it has run exactly if doAsync returns an error. */
  lemma BodyOnceCleanIffError(hasClean: bool, cancelled: bool, steps: seq<Step>, s: State)
    requires Run(Init(hasClean, cancelled), steps, s)
    ensures s.bodyRuns <= 1 && s.cleanRuns <= s.bodyRuns
    ensures s.worker == Finished ==> s.bodyRuns == 1 && (s.cleanRuns == 1 <==> hasClean && s.ret != Nil)
    ensures s.cleanRuns == 1 ==> hasClean && s.ret != Nil && s.worker == Finished
  {
    RunKeepsInv(Init(hasClean, cancelled), steps, s);
  }

  /** What is returned: the error of ctx, which then is cancelled, or the result of body, which then
      has returned.  If ctx is not cancelled, the goroutine has finished by then. */
  lemma ReturnValue(hasClean: bool, cancelled: bool, steps: seq<Step>, s: State)
    requires Run(Init(hasClean, cancelled), steps, s) && s.caller == Returned
    ensures (s.ret == Cancelled && s.cancelled) || (s.ret == s.body && s.bodyRuns == 1)
    ensures s.cancelledAtPoll ==> s.ret == Cancelled
    ensures !s.cancelled ==> s.worker == Finished && s.ret == s.body
  {
    RunKeepsInv(Init(hasClean, cancelled), steps, s);
  }

  /** The steps still to come, cancellation aside. */
  ghost function Work(s: State): nat {
    (match s.caller case Poll => 4 case Select => 3 case SendRet => 2 case Linger => 1 case Returned => 0) +
    (match s.worker case InBody => 4 case SendBody => 3 case AwaitRet => 2 case InClean => 1 case Finished => 0)
  }

  /** The step that comes next once body has returned. */
  function Next(s: State): Step {
    match s.caller
    case Poll => if s.cancelled then PollCancelled else PollOpen
    case SendRet => RetSent
    case Select => if s.bodyCh != [] then SelectBody else BodySent
    case _ =>
      match s.worker
      case SendBody => BodySent
      case AwaitRet => RetReceived
      case InClean => CleanReturns
      case _ => if s.cancelled && s.worker != Finished then LingerCancelled else LingerDone
  }

  /** Neither goroutine blocks forever on the channels once body has returned: as long as one of them is not
      through, a step other than cancellation is enabled, and there are only finitely many of those. */
  lemma NeverStuck(hasClean: bool, cancelled: bool, steps: seq<Step>, s: State)
    requires Run(Init(hasClean, cancelled), steps, s) && s.worker != InBody
    requires s.caller != Returned || s.worker != Finished
    ensures Enabled(s, Next(s)) && Next(s) != Cancel
  {
    RunKeepsInv(Init(hasClean, cancelled), steps, s);
  }

  lemma StepsEnd(s: State, step: Step)
    requires Enabled(s, step) && step != Cancel
    ensures Work(Apply(s, step)) < Work(s)
  {
  }

  /** The step that a caller can take on its own once ctx is cancelled. */
  function OwnStep(s: State): Step {
    match s.caller
    case Poll => PollCancelled
    case Select => SelectCancelled
    case SendRet => RetSent
    case _ => LingerCancelled
  }

  predicate OfCaller(step: Step) {
    step == PollCancelled || step == PollOpen || step == SelectBody || step == SelectCancelled || step == RetSent ||
    step == LingerDone || step == LingerCancelled
  }

  ghost function CallerWork(s: State): nat {
    match s.caller case Poll => 4 case Select => 3 case SendRet => 2 case Linger => 1 case Returned => 0
  }

  /** A call whose ctx is cancelled does not depend on the goroutine, which may be in body for good: in every state the
      caller can take a step, and its steps, which no other step delays, are only finitely many. */
  lemma CancelledNeverWaits(hasClean: bool, cancelled: bool, steps: seq<Step>, s: State)
    requires Run(Init(hasClean, cancelled), steps, s) && s.cancelled && s.caller != Returned
    ensures Enabled(s, OwnStep(s)) && OfCaller(OwnStep(s))
    ensures forall step :: Enabled(s, step) ==>
      Apply(s, step).cancelled && CallerWork(Apply(s, step)) <= CallerWork(s) - if OfCaller(step) then 1 else 0
  {
    RunKeepsInv(Init(hasClean, cancelled), steps, s);
    OwnStepEnabled(s);
    hide Inv, Enabled, Apply, CallerWork, OfCaller, OwnStep;
    forall step | Enabled(s, step)
      ensures Apply(s, step).cancelled && CallerWork(Apply(s, step)) <= CallerWork(s) - if OfCaller(step) then 1 else 0
    { CallerStepsEnd(s, step); }
  }

  lemma OwnStepEnabled(s: State)
    requires Inv(s) && s.cancelled && s.caller != Returned
    ensures Enabled(s, OwnStep(s)) && OfCaller(OwnStep(s))
  {
  }

  lemma CallerStepsEnd(s: State, step: Step)
    requires Enabled(s, step) && s.cancelled
    ensures Apply(s, step).cancelled && CallerWork(Apply(s, step)) <= CallerWork(s) - if OfCaller(step) then 1 else 0
  {
  }

  /** So it returns, without any step of the goroutine: what it has decided to return, or else the error of ctx. */
  lemma {:induction false} CancelledReturns(hasClean: bool, cancelled: bool, steps: seq<Step>, s: State) returns (own: seq<Step>, t: State)
    requires Run(Init(hasClean, cancelled), steps, s) && s.cancelled
    ensures Run(s, own, t) && (forall i :: 0 <= i < |own| ==> OfCaller(own[i])) && |own| <= 3
    ensures t.caller == Returned && t.worker == s.worker && t.ret == if Decided(s) then s.ret else Cancelled
  {
    RunKeepsInv(Init(hasClean, cancelled), steps, s);
    own, t := ReturnsAlone(s);
  }

  lemma {:induction false} ReturnsAlone(s: State) returns (own: seq<Step>, t: State)
    requires Inv(s) && s.cancelled
    ensures Run(s, own, t) && (forall i :: 0 <= i < |own| ==> OfCaller(own[i]))
    ensures |own| <= if Decided(s) then 2 else 3
    ensures t.caller == Returned && t.worker == s.worker && t.ret == if Decided(s) then s.ret else Cancelled
    decreases CallerWork(s)
  {
    if s.caller == Returned {
      own, t := [], s;
    } else {
      StepKeepsInv(s, OwnStep(s));
      own, t := ReturnsAlone(Apply(s, OwnStep(s)));
      own := [OwnStep(s)] + own;
    }
  }

  /** The comment on doAsync promises ctx.Err() and a call of clean whenever ctx is cancelled before body
      finishes.  By ReturnValue that holds if ctx is already cancelled at the first check.  In every other
      case it does not: after that check, a body that finishes after the cancellation without error may
      still have its result returned, or not. */
  lemma AfterPollEitherWay(hasClean: bool, cancelled: bool, steps: seq<Step>, s: State)
    requires Run(Init(hasClean, cancelled), steps, s) && s.caller == Select && s.cancelled && s.worker == InBody
    ensures Enabled(s, BodyReturns(Nil)) && Enabled(Apply(s, BodyReturns(Nil)), BodySent)
    ensures var t := Apply(Apply(s, BodyReturns(Nil)), BodySent);
      Enabled(t, SelectBody) && Apply(t, SelectBody).ret == Nil &&
      Enabled(t, SelectCancelled) && Apply(t, SelectCancelled).ret == Cancelled
  {
    RunKeepsInv(Init(hasClean, cancelled), steps, s);
  }

  /** What is to be returned does not change once it is decided. */
  lemma {:induction false} DecidedForGood(r: State, steps: seq<Step>, s: State)
    requires Inv(r) && Decided(r) && Run(r, steps, s)
    ensures Decided(s) && s.ret == r.ret && (r.bodyRuns == 1 ==> s.body == r.body)
    decreases |steps|
  {
    if steps != [] {
      StepKeepsInv(r, steps[0]);
      DecidedForGood(Apply(r, steps[0]), steps[1..], s);
    }
  }

  /** That much it keeps: if ctx is cancelled before the first check, the error of ctx is returned, whatever body does. */
  lemma CancelledBeforePoll(hasClean: bool, cancelled: bool, before: seq<Step>, r: State, steps: seq<Step>, s: State)
    requires Run(Init(hasClean, cancelled), before, r) && r.caller == Poll && r.cancelled && Run(r, steps, s) && Decided(s)
    ensures s.ret == Cancelled && s.cancelledAtPoll
  {
    RunKeepsInv(Init(hasClean, cancelled), before, r);
    SeesCancelled(r, steps, s);
  }

  lemma {:induction false} SeesCancelled(r: State, steps: seq<Step>, s: State)
    requires Inv(r) && r.caller == Poll && r.cancelled && Run(r, steps, s) && Decided(s)
    ensures s.ret == Cancelled && s.cancelledAtPoll
    decreases |steps|
  {
    if steps != [] {
      StepKeepsInv(r, steps[0]);
      if steps[0] == PollCancelled {
        StaysSeen(Apply(r, steps[0]), steps[1..], s);
      } else {
        SeesCancelled(Apply(r, steps[0]), steps[1..], s);
      }
    }
  }

  lemma {:induction false} StaysSeen(r: State, steps: seq<Step>, s: State)
    requires Inv(r) && Decided(r) && Run(r, steps, s) && r.cancelledAtPoll
    ensures s.cancelledAtPoll && s.ret == r.ret
    decreases |steps|
  {
    DecidedForGood(r, steps, s);
    if steps != [] {
      StepKeepsInv(r, steps[0]);
      StaysSeen(Apply(r, steps[0]), steps[1..], s);
    }
  }

  /** It also promises the result of body if body finishes before ctx is cancelled.  That holds if ctx is not
      cancelled before the caller has taken the result either, whatever happens afterwards. */
  lemma UncancelledGivesBody(hasClean: bool, cancelled: bool, steps: seq<Step>, s: State, rest: seq<Step>, t: State)
    requires Run(Init(hasClean, cancelled), steps, s) && Decided(s) && !s.cancelled && Run(s, rest, t)
    ensures t.ret == s.body == t.body && s.bodyRuns == 1
  {
    RunKeepsInv(Init(hasClean, cancelled), steps, s);
    DecidedForGood(s, rest, t);
  }

  /** In every other case it does not: from every state in which body has finished and the caller has not decided yet, a
      cancellation now can make it return the error of ctx, while without one it returns the result of body. */
  lemma FinishedBodyEitherWay(hasClean: bool, cancelled: bool, steps: seq<Step>, s: State)
    requires Run(Init(hasClean, cancelled), steps, s) && !Decided(s) && !s.cancelled
    requires s.worker == SendBody || s.worker == AwaitRet
    ensures Enabled(s, Cancel)
    ensures var late := if s.caller == Poll then PollCancelled else SelectCancelled;
      Enabled(Apply(s, Cancel), late) && Apply(Apply(s, Cancel), late).ret == Cancelled
    ensures s.worker == SendBody ==> Enabled(s, BodySent)
    ensures var t := if s.worker == SendBody then Apply(s, BodySent) else s;
      (t.caller == Poll ==> Enabled(t, PollOpen)) &&
      var u := if t.caller == Poll then Apply(t, PollOpen) else t;
      Enabled(u, SelectBody) && Apply(u, SelectBody).ret == s.body
  {
    RunKeepsInv(Init(hasClean, cancelled), steps, s);
  }

  /** States as in AfterPollEitherWay and in FinishedBodyEitherWay occur. */
  lemma CancelledAfterPoll()
    ensures Run(Init(true, false), [PollOpen, Cancel], Init(true, false).(caller := Select, cancelled := true))
  {
    var s1 := Init(true, false).(caller := Select);
    assert Apply(Init(true, false), PollOpen) == s1;
    assert [PollOpen, Cancel][1..] == [Cancel] && [Cancel][1..] == [];
    assert Run(Apply(s1, Cancel), [], s1.(cancelled := true));
    assert Run(s1, [Cancel], s1.(cancelled := true));
  }

  lemma FinishedBeforePoll()
    ensures Run(Init(true, false), [BodyReturns(Nil), BodySent], Init(true, false).(worker := AwaitRet, bodyCh := [Nil], bodyRuns := 1))
  {
    var s1 := Init(true, false).(worker := SendBody, bodyRuns := 1);
    var s2 := s1.(worker := AwaitRet, bodyCh := [Nil]);
    assert Apply(Init(true, false), BodyReturns(Nil)) == s1 && Apply(s1, BodySent) == s2;
    assert [BodyReturns(Nil), BodySent][1..] == [BodySent] && [BodySent][1..] == [];
    assert Run(s2, [], s2);
    assert Run(s1, [BodySent], s2);
  }
}

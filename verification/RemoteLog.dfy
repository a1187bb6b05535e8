/** The remote logging protocol as a step system over all interleavings of its goroutines: handlers that
    log on the server, the buffered relay, ReadLogs, an in-order stream, the client's receive loop and
    the calls that wait for their logs.  One subscription is modelled; base is the number of the last
    entry before it. */
module RemoteLog {

  /** A log entry: its sequence number and the call whose handler emitted it, or -1 for an entry from outside handlers,
      such as the stack trace that the server logs for a failed call after it has read the trailer. */
  datatype Entry = Entry(num: nat, call: int)

  /** Where bufferedRelay is: at the top of its loop, receiving into an empty buffer, in its select,
      in the final loop, or finished with dst closed. */
  datatype Relay = Top | Receiving | Selecting | Draining | Closed

  /** Where ReadLogs is: in its loop, about to close the inbox, sending what remains, or returned. */
  datatype Reader = Serving | Closing | Flushing | Returned

  /** A call: its handler runs; then the client waits for the sequence number in the trailer, by
      checking or blocked on a channel; then it has returned, with the wait successful or not. */
  datatype Call =
    | Running
    | Checking(trailer: nat)
    | Blocked(trailer: nat, waiter: nat)
    | Ended(trailer: nat, ok: bool)

  datatype State = State(
    base: nat,
    lastSeq: nat,              // server: number of the last entry
    holding: seq<Entry>,       // the entry a Log call is sending to the inbox while it holds the mutex
    open: bool,                // the inbox is not closed
    relay: Relay, buf: seq<Entry>,
    reader: Reader, hand: seq<Entry>, // the entry ReadLogs has taken from the relay and not sent yet
    broken: bool,              // a send on the stream has failed; later ones fail too
    received: seq<Entry>,      // entry the client has passed to its logger and not acknowledged yet
    clientSeq: nat, clientDone: bool,
    waiters: set<nat>, notified: set<nat>, channels: nat, // waiter channels: registered, closed, created so far
    calls: map<nat, Call>,
    // histories, for the specification
    emitted: seq<Entry>, taken: seq<Entry>, handed: seq<Entry>, sent: seq<Entry>, logged: seq<Entry>)

  /** The state right after a successful subscription. */
  function Init(base: nat): State {
    State(base, base, [], true, Top, [], Serving, [], false, [], 0, false, {}, {}, 0, map[], [], [], [], [], [])
  }

  datatype Step =
    | BeginCall(c: nat)
    | Log(c: nat)
    | LogOutside
    | RelayTop
    | RelayReceive
    | RelaySend
    | RelaySeesClose
    | RelayClose
    | SendOk
    | SendFails
    | ReaderStops
    | CloseInbox
    | ReaderReturns
    | ClientReceives
    | ClientAcks
    | ClientStops
    | HandlerReturns(c: nat)
    | Check(c: nat)
    | Wake(c: nat)
    | GiveUp(c: nat)

  predicate Enabled(s: State, step: Step) {
    match step
    case BeginCall(c) => c !in s.calls
    case Log(c) => c in s.calls && s.calls[c] == Running && s.holding == []
    case LogOutside => s.holding == []
    case RelayTop => s.relay == Top
    case RelayReceive => (s.relay == Receiving || s.relay == Selecting) && s.holding != []
    case RelaySend => (s.relay == Selecting || s.relay == Draining) && s.buf != [] && s.hand == [] && (s.reader == Serving || s.reader == Flushing)
    case RelaySeesClose => (s.relay == Receiving || s.relay == Selecting) && !s.open
    case RelayClose => s.relay == Draining && s.buf == []
    case SendOk => s.hand != [] && !s.broken
    case SendFails => s.hand != []
    case ReaderStops => s.reader == Serving && s.hand == []
    case CloseInbox => s.reader == Closing && s.holding == []
    case ReaderReturns => s.reader == Flushing && s.hand == [] && s.relay == Closed
    case ClientReceives => !s.clientDone && s.received == [] && |s.logged| < |s.sent|
    case ClientAcks => s.received != []
    case ClientStops => !s.clientDone && s.received == []
    case HandlerReturns(c) => c in s.calls && s.calls[c] == Running && s.holding == []
    case Check(c) => c in s.calls && s.calls[c].Checking?
    case Wake(c) => c in s.calls && s.calls[c].Blocked? && s.calls[c].waiter in s.notified
    case GiveUp(c) => c in s.calls && s.calls[c].Blocked?
  }

  /** Log: the entry gets its number and is sent to the inbox, if there is one. */
  function Emitted(s: State, call: int): State {
    if !s.open then s
    else
      var e := Entry(s.lastSeq + 1, call);
      s.(lastSeq := s.lastSeq + 1, holding := [e], emitted := s.emitted + [e])
  }

  function Apply(s: State, step: Step): State
    requires Enabled(s, step)
  {
    match step
    case BeginCall(c) => s.(calls := s.calls[c := Running])
    case Log(c) => Emitted(s, c)
    case LogOutside => Emitted(s, -1)
    case RelayTop => s.(relay := if s.buf == [] then Receiving else Selecting)
    case RelayReceive =>
      s.(relay := if s.relay == Receiving then Selecting else Top, buf := s.buf + s.holding, holding := [], taken := s.taken + s.holding)
    case RelaySend =>
      s.(relay := if s.relay == Selecting then Top else Draining, buf := s.buf[1..], hand := [s.buf[0]], handed := s.handed + [s.buf[0]])
    case RelaySeesClose => s.(relay := Draining)
    case RelayClose => s.(relay := Closed)
    case SendOk => s.(hand := [], sent := s.sent + s.hand)
    case SendFails => s.(hand := [], broken := true, reader := if s.reader == Serving then Closing else s.reader)
    case ReaderStops => s.(reader := Closing)
    case CloseInbox => s.(reader := Flushing, open := false)
    case ReaderReturns => s.(reader := Returned)
    case ClientReceives => s.(received := [s.sent[|s.logged|]], logged := s.logged + [s.sent[|s.logged|]])
    case ClientAcks =>
      s.(clientSeq := s.received[0].num, received := [], notified := s.notified + s.waiters, waiters := {})
    case ClientStops => s.(clientDone := true)
    case HandlerReturns(c) => s.(calls := s.calls[c := Checking(s.lastSeq)])
    case Check(c) =>
      if s.clientSeq >= s.calls[c].trailer then s.(calls := s.calls[c := Ended(s.calls[c].trailer, true)])
      else s.(calls := s.calls[c := Blocked(s.calls[c].trailer, s.channels)], waiters := s.waiters + {s.channels}, channels := s.channels + 1)
    case Wake(c) => s.(calls := s.calls[c := Checking(s.calls[c].trailer)])
    case GiveUp(c) => s.(calls := s.calls[c := Ended(s.calls[c].trailer, false)])
  }

  /** A run: every step is enabled in the state it is taken in. */
  ghost predicate Run(r: State, steps: seq<Step>, s: State)
    decreases |steps|
  {
    if steps == [] then s == r else Enabled(r, steps[0]) && Run(Apply(r, steps[0]), steps[1..], s)
  }

  // ----- Invariants -----

  /** Program counters, buffers and the inbox agree. */
  ghost predicate Control(s: State) {
    |s.holding| <= 1 && |s.hand| <= 1 && |s.received| <= 1 &&
    (s.holding != [] ==> s.open) &&
    (s.relay == Selecting ==> s.buf != []) && (s.relay == Receiving ==> s.buf == []) && (s.relay == Closed ==> s.buf == []) &&
    (s.open <==> s.reader == Serving || s.reader == Closing) &&
    (s.relay == Draining || s.relay == Closed ==> !s.open) &&
    (s.reader == Closing || s.reader == Returned ==> s.hand == []) &&
    (s.reader == Returned ==> s.relay == Closed) && (s.broken ==> s.reader != Serving)
  }

  /** No entry is lost or reordered on its way: what was emitted is taken from the inbox in order, handed on
      in order, sent in order and logged in order, with the rest in the buffers in between. */
  ghost predicate Flow(s: State) {
    s.emitted == s.taken + s.holding &&
    s.taken == s.handed + s.buf &&
    (if s.broken then s.sent <= s.handed else s.handed == s.sent + s.hand) &&
    s.logged <= s.sent
  }

  /** Entries are numbered consecutively from base + 1. */
  ghost predicate Numbered(s: State) {
    s.base + |s.emitted| == s.lastSeq && forall i :: 0 <= i < |s.emitted| ==> s.emitted[i].num == s.base + 1 + i
  }

  /** How many entries the client has logged and acknowledged. */
  ghost function Acked(s: State): int { |s.logged| - |s.received| }

  ghost predicate Client(s: State) {
    Acked(s) >= 0 && (s.received != [] ==> s.received[0] == s.logged[|s.logged| - 1]) &&
    s.clientSeq == if Acked(s) == 0 then 0 else s.base + Acked(s)
  }

  /** A call's trailer covers what its handler emitted; a successful wait saw its trailer. */
  ghost predicate Trailers(s: State) {
    (forall c :: c in s.calls && !s.calls[c].Running? ==> s.calls[c].trailer <= s.lastSeq) &&
    (forall c :: c in s.calls && s.calls[c].Ended? && s.calls[c].ok ==> s.calls[c].trailer <= s.clientSeq) &&
    (forall i :: 0 <= i < |s.emitted| ==>
      var c := s.emitted[i].call; c == -1 || (c in s.calls && (!s.calls[c].Running? ==> s.emitted[i].num <= s.calls[c].trailer)))
  }

  /** Channels are registered, then closed once; a blocked call whose channel is not closed waits for a
      number the client has not seen. */
  ghost predicate Waiting(s: State) {
    (forall w :: w in s.waiters || w in s.notified ==> w < s.channels) && s.waiters !! s.notified &&
    (forall c :: c in s.calls && s.calls[c].Blocked? ==>
      (s.calls[c].waiter in s.waiters && s.clientSeq < s.calls[c].trailer) || s.calls[c].waiter in s.notified)
  }

  ghost predicate Inv(s: State) {
    Control(s) && Flow(s) && Numbered(s) && Client(s) && Trailers(s) && Waiting(s)
  }

  /** What the relay, ReadLogs and Log do to their program counters. */
  predicate OfCalls(step: Step) {
    step.BeginCall? || step.HandlerReturns? || step.Check? || step.Wake? || step.GiveUp?
  }

  predicate OfClient(step: Step) { step.ClientReceives? || step.ClientAcks? || step.ClientStops? }

  predicate OfRelay(step: Step) {
    step.RelayTop? || step.RelayReceive? || step.RelaySend? || step.RelaySeesClose? || step.RelayClose?
  }

  lemma StepControl(s: State, step: Step)
    requires Control(s) && Enabled(s, step)
    ensures Control(Apply(s, step))
  {
    hide Control, Enabled, Apply;
    if OfCalls(step) {
      CallsFrame(s, step);
      ControlFrame(s, Apply(s, step));
    } else if OfClient(step) {
      ControlClient(s, step);
    } else if OfRelay(step) {
      ControlRelay(s, step);
    } else {
      ControlReader(s, step);
    }
  }

  /** The steps of calls touch nothing but calls and waiters. */
  lemma CallsFrame(s: State, step: Step)
    requires Enabled(s, step) && OfCalls(step)
    ensures var t := Apply(s, step);
      t == s.(calls := t.calls, waiters := t.waiters, channels := t.channels)
  {
  }

  lemma ControlFrame(s: State, t: State)
    requires Control(s) && t == s.(calls := t.calls, waiters := t.waiters, channels := t.channels)
    ensures Control(t)
  {
  }

  lemma ControlClient(s: State, step: Step)
    requires Control(s) && Enabled(s, step) && OfClient(step)
    ensures Control(Apply(s, step))
  {
  }

  lemma ControlRelay(s: State, step: Step)
    requires Control(s) && Enabled(s, step) && OfRelay(step)
    ensures Control(Apply(s, step))
  {
  }

  lemma ControlReader(s: State, step: Step)
    requires Control(s) && Enabled(s, step) && !OfCalls(step) && !OfClient(step) && !OfRelay(step)
    ensures Control(Apply(s, step))
  {
  }

  lemma StepFlow(s: State, step: Step)
    requires Control(s) && Flow(s) && Enabled(s, step)
    ensures Flow(Apply(s, step))
  {
    hide Flow, Control, Apply, Enabled;
    match step {
      case RelayReceive => FlowReceive(s);
      case RelaySend => FlowSend(s);
      case SendOk => FlowSendOk(s);
      case SendFails => FlowSendFails(s);
      case ClientReceives => FlowClient(s);
      case Log(c) => FlowLog(s, step);
      case LogOutside => FlowLog(s, step);
      case _ => FlowFrame(s, step);
    }
  }

  /** All other steps leave the entries where they are. */
  lemma FlowFrame(s: State, step: Step)
    requires Flow(s) && Enabled(s, step) && !step.Log? && !step.LogOutside? && !step.SendFails?
    requires !step.RelayReceive? && !step.RelaySend? && !step.SendOk? && !step.ClientReceives?
    ensures Flow(Apply(s, step))
  {
    hide Flow, Apply, Enabled;
    EntriesStay(s, step);
    FlowSame(s, Apply(s, step));
  }

  lemma EntriesStay(s: State, step: Step)
    requires Enabled(s, step) && !step.Log? && !step.LogOutside? && !step.SendFails?
    requires !step.RelayReceive? && !step.RelaySend? && !step.SendOk? && !step.ClientReceives?
    ensures SameEntries(s, Apply(s, step))
  {
  }

  ghost predicate SameEntries(s: State, t: State) {
    t.emitted == s.emitted && t.holding == s.holding && t.taken == s.taken && t.buf == s.buf && t.handed == s.handed &&
    t.hand == s.hand && t.broken == s.broken && t.sent == s.sent && t.logged == s.logged
  }

  lemma FlowSame(s: State, t: State)
    requires Flow(s) && SameEntries(s, t)
    ensures Flow(t)
  {
  }

  lemma FlowLog(s: State, step: Step)
    requires Flow(s) && Enabled(s, step) && (step.Log? || step.LogOutside?)
    ensures Flow(Apply(s, step))
  {
  }

  lemma FlowSendFails(s: State)
    requires Flow(s) && Enabled(s, SendFails)
    ensures Flow(Apply(s, SendFails))
  {
  }

  lemma FlowReceive(s: State)
    requires Flow(s) && Enabled(s, RelayReceive)
    ensures Flow(Apply(s, RelayReceive))
  {
    assert s.handed + s.buf + s.holding == s.handed + (s.buf + s.holding);
  }

  lemma FlowSend(s: State)
    requires Flow(s) && Enabled(s, RelaySend)
    ensures Flow(Apply(s, RelaySend))
  {
    assert s.handed + s.buf == s.handed + [s.buf[0]] + s.buf[1..];
  }

  lemma FlowSendOk(s: State)
    requires Flow(s) && Enabled(s, SendOk)
    ensures Flow(Apply(s, SendOk))
  {
  }

  lemma FlowClient(s: State)
    requires Flow(s) && Enabled(s, ClientReceives)
    ensures Flow(Apply(s, ClientReceives))
  {
    assert s.logged + [s.sent[|s.logged|]] <= s.sent;
  }

  lemma StepNumbered(s: State, step: Step)
    requires Numbered(s) && Enabled(s, step)
    ensures Numbered(Apply(s, step))
  {
    hide Numbered, Apply, Enabled;
    if step.Log? || step.LogOutside? {
      NumberedLog(s, step);
    } else {
      NothingEmitted(s, step);
      NumberedFrame(s, Apply(s, step));
    }
  }

  lemma NumberedLog(s: State, step: Step)
    requires Numbered(s) && Enabled(s, step) && (step.Log? || step.LogOutside?)
    ensures Numbered(Apply(s, step))
  {
  }

  lemma NothingEmitted(s: State, step: Step)
    requires Enabled(s, step) && !step.Log? && !step.LogOutside?
    ensures var t := Apply(s, step); t.base == s.base && t.lastSeq == s.lastSeq && t.emitted == s.emitted
  {
  }

  lemma NumberedFrame(s: State, t: State)
    requires Numbered(s) && t.base == s.base && t.lastSeq == s.lastSeq && t.emitted == s.emitted
    ensures Numbered(t)
  {
  }

  lemma StepClient(s: State, step: Step)
    requires Control(s) && Flow(s) && Numbered(s) && Client(s) && Enabled(s, step)
    ensures Client(Apply(s, step)) && s.clientSeq <= Apply(s, step).clientSeq
  {
    hide Control, Flow, Numbered, Client, Apply, Enabled;
    match step {
      case ClientReceives => ClientReceived(s);
      case ClientAcks => ClientAcked(s);
      case _ => ClientFrame(s, step);
    }
  }

  /** All other steps leave alone what the client has logged and acknowledged. */
  lemma ClientFrame(s: State, step: Step)
    requires Client(s) && Enabled(s, step) && !step.ClientReceives? && !step.ClientAcks?
    ensures Client(Apply(s, step)) && s.clientSeq <= Apply(s, step).clientSeq
  {
    hide Client, Apply, Enabled;
    ClientIdle(s, step);
    ClientSame(s, Apply(s, step));
  }

  lemma ClientIdle(s: State, step: Step)
    requires Enabled(s, step) && !step.ClientReceives? && !step.ClientAcks?
    ensures var t := Apply(s, step);
      t.base == s.base && t.logged == s.logged && t.received == s.received && t.clientSeq == s.clientSeq
  {
  }

  lemma ClientSame(s: State, t: State)
    requires Client(s) && t.base == s.base && t.logged == s.logged && t.received == s.received && t.clientSeq == s.clientSeq
    ensures Client(t)
  {
  }

  lemma ClientReceived(s: State)
    requires Control(s) && Flow(s) && Numbered(s) && Client(s) && Enabled(s, ClientReceives)
    ensures Client(Apply(s, ClientReceives)) && s.clientSeq <= Apply(s, ClientReceives).clientSeq
  {
  }

  lemma ClientAcked(s: State)
    requires Control(s) && Flow(s) && Numbered(s) && Client(s) && Enabled(s, ClientAcks)
    ensures Client(Apply(s, ClientAcks)) && s.clientSeq <= Apply(s, ClientAcks).clientSeq
  {
    LoggedNumbered(s);
  }

  /** What the client has logged carries the numbers from base + 1 on. */
  lemma LoggedNumbered(s: State)
    requires Flow(s) && Numbered(s)
    ensures |s.logged| <= |s.emitted| && s.logged == s.emitted[..|s.logged|]
    ensures forall i :: 0 <= i < |s.logged| ==> s.logged[i].num == s.base + 1 + i
  {
    assert s.sent <= s.handed;
    assert s.handed <= s.taken <= s.emitted;
  }

  lemma StepTrailers(s: State, step: Step)
    requires Numbered(s) && Trailers(s) && Enabled(s, step) && s.clientSeq <= Apply(s, step).clientSeq
    ensures Trailers(Apply(s, step))
  {
    hide Trailers, Numbered;
    match step {
      case Log(c) => TrailersLog(s, step);
      case LogOutside => TrailersLog(s, step);
      case HandlerReturns(c) => TrailersReturn(s, c);
      case BeginCall(c) => TrailersCall(s, Apply(s, step), c);
      case Check(c) => TrailersCall(s, Apply(s, step), c);
      case Wake(c) => TrailersCall(s, Apply(s, step), c);
      case GiveUp(c) => TrailersCall(s, Apply(s, step), c);
      case _ => TrailersFrame(s, Apply(s, step));
    }
  }

  lemma TrailersFrame(s: State, t: State)
    requires Trailers(s) && t.calls == s.calls && t.emitted == s.emitted && t.lastSeq == s.lastSeq && s.clientSeq <= t.clientSeq
    ensures Trailers(t)
  {
  }

  /** A call that begins, or goes on with its wait. */
  lemma TrailersCall(s: State, t: State, c: nat)
    requires Trailers(s) && t.emitted == s.emitted && t.lastSeq == s.lastSeq && s.clientSeq <= t.clientSeq
    requires c in t.calls && t.calls == s.calls[c := t.calls[c]]
    requires if c in s.calls then !s.calls[c].Running? && !t.calls[c].Running? && t.calls[c].trailer == s.calls[c].trailer else t.calls[c] == Running
    requires t.calls[c].Ended? && t.calls[c].ok ==> t.calls[c].trailer <= t.clientSeq
    ensures Trailers(t)
  {
    assert forall d :: d in s.calls ==> d in t.calls && (d != c ==> t.calls[d] == s.calls[d]);
  }

  lemma TrailersLog(s: State, step: Step)
    requires Trailers(s) && Enabled(s, step) && (step.Log? || step.LogOutside?)
    ensures Trailers(Apply(s, step))
  {
  }

  lemma TrailersReturn(s: State, c: nat)
    requires Numbered(s) && Trailers(s) && Enabled(s, HandlerReturns(c))
    ensures Trailers(Apply(s, HandlerReturns(c)))
  {
  }

  lemma StepWaiting(s: State, step: Step)
    requires Waiting(s) && Enabled(s, step)
    ensures Waiting(Apply(s, step))
  {
    hide Waiting, Apply, Enabled;
    if OfCalls(step) {
      WaitingCall(s, step);
    } else if step.ClientAcks? {
      WaitingAcked(s);
    } else {
      NobodyMoves(s, step);
      WaitingSame(s, Apply(s, step));
    }
  }

  lemma WaitingCall(s: State, step: Step)
    requires Waiting(s) && Enabled(s, step) && OfCalls(step)
    ensures Waiting(Apply(s, step))
  {
  }

  lemma WaitingAcked(s: State)
    requires Waiting(s) && Enabled(s, ClientAcks)
    ensures Waiting(Apply(s, ClientAcks))
  {
  }

  lemma NobodyMoves(s: State, step: Step)
    requires Enabled(s, step) && !OfCalls(step) && !step.ClientAcks?
    ensures SameWaiters(s, Apply(s, step))
  {
  }

  ghost predicate SameWaiters(s: State, t: State) {
    t.waiters == s.waiters && t.notified == s.notified && t.channels == s.channels && t.calls == s.calls && t.clientSeq == s.clientSeq
  }

  lemma WaitingSame(s: State, t: State)
    requires Waiting(s) && SameWaiters(s, t)
    ensures Waiting(t)
  {
  }

  lemma StepKeepsInv(s: State, step: Step)
    requires Inv(s) && Enabled(s, step)
    ensures Inv(Apply(s, step)) && Apply(s, step).base == s.base
  {
    hide Control, Flow, Numbered, Client, Trailers, Waiting;
    StepControl(s, step);
    StepFlow(s, step);
    StepNumbered(s, step);
    StepClient(s, step);
    StepTrailers(s, step);
    StepWaiting(s, step);
  }

  /** The invariant holds in every state of every run. */
  lemma {:induction false} RunKeepsInv(r: State, steps: seq<Step>, s: State)
    requires Inv(r) && Run(r, steps, s)
    ensures Inv(s) && s.base == r.base
    decreases |steps|
  {
    hide Inv, Enabled, Apply;
    if steps != [] {
      StepKeepsInv(r, steps[0]);
      RunKeepsInv(Apply(r, steps[0]), steps[1..], s);
    }
  }

  /** Every state of every run of a subscription that began after entry number base. */
  lemma Reachable(base: nat, steps: seq<Step>, s: State)
    requires Run(Init(base), steps, s)
    ensures Inv(s) && s.base == base
  {
    RunKeepsInv(Init(base), steps, s);
  }

  // ----- What the protocol promises -----

  /** In every state of a run the relay has lost and reordered nothing: what it took is what it handed on
      followed by its buffer. */
  lemma RelayKeepsOrder(base: nat, steps: seq<Step>, s: State)
    requires Run(Init(base), steps, s)
    ensures s.taken == s.handed + s.buf && s.emitted == s.taken + s.holding
  {
    Reachable(base, steps, s);
  }

  /** A Log call that holds the mutex never blocks for good: the relay is ready to take its entry, at
      the latest after one step that depends on no one else. */
  lemma LogNeverBlocksForGood(base: nat, steps: seq<Step>, s: State)
    requires Run(Init(base), steps, s) && s.holding != []
    ensures Enabled(s, RelayReceive) || (Enabled(s, RelayTop) && Enabled(Apply(s, RelayTop), RelayReceive))
  {
    Reachable(base, steps, s);
  }

  /** If no send failed, ReadLogs has sent all entries of the subscription, consecutively numbered and in
      order, before it returns. */
  lemma ReadLogsSendsAll(base: nat, steps: seq<Step>, s: State)
    requires Run(Init(base), steps, s) && s.reader == Returned && !s.broken
    ensures s.sent == s.emitted && |s.sent| == s.lastSeq - base
    ensures forall i :: 0 <= i < |s.sent| ==> s.sent[i].num == base + 1 + i
  {
    Reachable(base, steps, s);
  }

  /** The barrier: when a call's wait has succeeded, the client has logged every entry of the subscription
      up to the number in its trailer, and with them all that the call's handler emitted. */
  lemma BarrierHolds(base: nat, steps: seq<Step>, s: State, c: nat)
    requires Run(Init(base), steps, s) && c in s.calls && s.calls[c].Ended? && s.calls[c].ok
    ensures forall i :: 0 <= i < |s.emitted| && (s.emitted[i].num <= s.calls[c].trailer || s.emitted[i].call == c) ==>
      i < |s.logged| && s.logged[i] == s.emitted[i]
  {
    Reachable(base, steps, s);
    LoggedNumbered(s);
  }

  /** A blocked call that has not been notified waits for an entry the client has not seen, and no
      channel that is closed is still registered to be closed again. */
  lemma NoLostWakeup(base: nat, steps: seq<Step>, s: State)
    requires Run(Init(base), steps, s)
    ensures s.waiters !! s.notified
    ensures forall c :: c in s.calls && s.calls[c].Blocked? && s.calls[c].waiter !in s.notified ==>
      s.calls[c].waiter in s.waiters && s.clientSeq < s.calls[c].trailer
  {
    Reachable(base, steps, s);
  }

  // ----- Progress -----

  /** Steps of the relay, ReadLogs and the client that wait for nobody outside the protocol. */
  predicate Internal(step: Step) {
    step.RelayTop? || step.RelayReceive? || step.RelaySend? || step.RelaySeesClose? || step.RelayClose? ||
    step.SendOk? || step.CloseInbox? || step.ReaderReturns? || step.ClientReceives? || step.ClientAcks?
  }

  ghost function RelayWork(r: Relay): nat {
    match r case Top => 3 case Receiving => 2 case Selecting => 2 case Draining => 1 case Closed => 0
  }

  ghost function ReaderWork(r: Reader): nat {
    match r case Serving => 3 case Closing => 2 case Flushing => 1 case Returned => 0
  }

  /** What is left to do for the entries on their way. */
  ghost function Work(s: State): int {
    9 * |s.holding| + 7 * |s.buf| + 5 * |s.hand| + 4 * (|s.sent| - |s.logged|) + 2 * |s.received| + RelayWork(s.relay) + ReaderWork(s.reader)
  }

  /** Internal steps cannot go on forever. */
  lemma InternalStepsEnd(s: State, step: Step)
    requires Inv(s) && Enabled(s, step) && Internal(step)
    ensures 0 <= Work(Apply(s, step)) < Work(s)
  {
  }

  /** The next internal step on the way of the first entry that the client has not acknowledged. */
  function Next(s: State): Step {
    if s.received != [] then ClientAcks
    else if |s.logged| < |s.sent| then ClientReceives
    else if s.hand != [] then SendOk
    else if s.relay == Top then RelayTop
    else if s.buf == [] then RelayReceive
    else if s.reader == Serving || s.reader == Flushing then RelaySend
    else if s.holding == [] then CloseInbox
    else RelayReceive
  }

  /** As long as the stream works and the client listens, an entry on its way is never stuck: internal steps
      alone, finitely many of them, get every entry acknowledged. */
  lemma NeverStuck(base: nat, steps: seq<Step>, s: State)
    requires Run(Init(base), steps, s) && !s.broken && !s.clientDone && Acked(s) < |s.emitted|
    ensures Internal(Next(s)) && Enabled(s, Next(s))
  {
    Reachable(base, steps, s);
    NextEnabled(s);
  }

  lemma NextEnabled(s: State)
    requires Inv(s) && !s.broken && !s.clientDone && Acked(s) < |s.emitted|
    ensures Internal(Next(s)) && Enabled(s, Next(s))
  {
    assert |s.emitted| == |s.sent| + |s.hand| + |s.buf| + |s.holding|;
  }

  /** The end of the wait: once all entries are acknowledged, checking a trailer succeeds exactly if
      the subscription has had an entry, or there has never been one. */
  lemma QuietWait(base: nat, steps: seq<Step>, s: State, c: nat)
    requires Run(Init(base), steps, s) && Acked(s) == |s.emitted| && Enabled(s, Check(c))
    ensures Apply(s, Check(c)).calls[c] == Ended(s.calls[c].trailer, true) <==> (s.emitted != [] || s.calls[c].trailer == 0)
    ensures base == 0 ==> Apply(s, Check(c)).calls[c] == Ended(s.calls[c].trailer, true)
  {
    Reachable(base, steps, s);
  }

  /** Composed: however the internal steps are scheduled, as long as the stream works and the client listens, they end
      after finitely many, and then the client has acknowledged every entry. */
  lemma {:induction false} AllAcknowledged(base: nat, before: seq<Step>, s: State, steps: seq<Step>, t: State)
    requires Run(Init(base), before, s) && !s.broken && !s.clientDone
    requires Run(s, steps, t) && forall i :: 0 <= i < |steps| ==> Internal(steps[i])
    ensures |steps| <= Work(s) && t.emitted == s.emitted && t.calls == s.calls
    ensures (forall step :: Internal(step) ==> !Enabled(t, step)) ==> Acked(t) == |t.emitted|
  {
    Reachable(base, before, s);
    InternalRun(s, steps, t);
    if forall step :: Internal(step) ==> !Enabled(t, step) {
      RunKeepsInv(s, steps, t);
      if Acked(t) < |t.emitted| { NextEnabled(t); }
    }
  }

  lemma {:induction false} InternalRun(s: State, steps: seq<Step>, t: State)
    requires Inv(s) && Run(s, steps, t) && forall i :: 0 <= i < |steps| ==> Internal(steps[i])
    ensures |steps| + Work(t) <= Work(s) && 0 <= Work(t)
    ensures t.emitted == s.emitted && t.calls == s.calls && t.broken == s.broken && t.clientDone == s.clientDone
    decreases |steps|
  {
    hide Inv, Enabled, Apply, Work;
    if steps != [] {
      StepKeepsInv(s, steps[0]);
      InternalStepsEnd(s, steps[0]);
      InternalFrame(s, steps[0]);
      InternalRun(Apply(s, steps[0]), steps[1..], t);
    } else {
      WorkLeft(s);
    }
  }

  lemma WorkLeft(s: State)
    requires Inv(s)
    ensures 0 <= Work(s)
  {
  }

  lemma InternalFrame(s: State, step: Step)
    requires Enabled(s, step) && Internal(step)
    ensures var t := Apply(s, step);
      t.emitted == s.emitted && t.calls == s.calls && t.broken == s.broken && t.clientDone == s.clientDone
  {
  }

  /** The steps are internal, and lead to where no internal step is left. */
  ghost predicate Settles(s: State, steps: seq<Step>, t: State) {
    Run(s, steps, t) && (forall i :: 0 <= i < |steps| ==> Internal(steps[i])) && forall step :: Internal(step) ==> !Enabled(t, step)
  }

  /** What is logged, by the handler of a call that runs or outside handlers, gets a number of its own and reaches the logger
      of the client, as long as the stream works and the client listens. */
  lemma LogReachesClient(base: nat, before: seq<Step>, s: State, call: int, steps: seq<Step>, t: State)
    requires Run(Init(base), before, s) && s.open && s.holding == [] && !s.broken && !s.clientDone
    requires call == -1 || (call >= 0 && call in s.calls && s.calls[call] == Running)
    ensures var step := if call == -1 then LogOutside else Log(call);
      Enabled(s, step) && (Settles(Apply(s, step), steps, t) ==> t.logged == s.emitted + [Entry(s.lastSeq + 1, call)])
  {
    hide Inv, Apply;
    var step := if call == -1 then LogOutside else Log(call);
    LogApplies(s, call);
    var u := Apply(s, step);
    if Settles(u, steps, t) {
      RunNext(Init(base), before, s, step);
      AllAcknowledged(base, before + [step], u, steps, t);
      Reachable(base, before + [step], u);
      RunKeepsInv(u, steps, t);
      InternalRun(u, steps, t);
      AllLogged(t);
    }
  }

  lemma LogApplies(s: State, call: int)
    requires s.open && s.holding == [] && (call == -1 || (call >= 0 && call in s.calls && s.calls[call] == Running))
    ensures var step := if call == -1 then LogOutside else Log(call);
      Enabled(s, step) && var u := Apply(s, step);
      u.emitted == s.emitted + [Entry(s.lastSeq + 1, call)] && u.broken == s.broken && u.clientDone == s.clientDone
  {
  }

  lemma {:induction false} RunNext(r: State, steps: seq<Step>, s: State, step: Step)
    requires Run(r, steps, s) && Enabled(s, step)
    ensures Run(r, steps + [step], Apply(s, step))
    decreases |steps|
  {
    hide Apply, Enabled;
    if steps != [] {
      RunNext(Apply(r, steps[0]), steps[1..], s, step);
      assert (steps + [step])[1..] == steps[1..] + [step];
    } else {
      assert (steps + [step])[1..] == [];
    }
  }

  lemma AllLogged(s: State)
    requires Inv(s) && !s.broken && Acked(s) == |s.emitted|
    ensures s.logged == s.emitted
  {
    assert |s.emitted| == |s.sent| + |s.hand| + |s.buf| + |s.holding|;
  }

  /** A call that waits is never stuck for good: by at most two steps of its own, one of them giving up, it comes to its
      end, and to a successful one only if its trailer was seen. */
  lemma CallCanEnd(base: nat, steps: seq<Step>, s: State, c: nat) returns (own: seq<Step>, t: State)
    requires Run(Init(base), steps, s) && c in s.calls && (s.calls[c].Checking? || s.calls[c].Blocked?)
    ensures Run(s, own, t) && |own| <= 2 && forall i :: 0 <= i < |own| ==> own[i] == Check(c) || own[i] == GiveUp(c)
    ensures c in t.calls && t.calls[c] == Ended(s.calls[c].trailer, s.calls[c].Checking? && s.clientSeq >= s.calls[c].trailer)
    ensures t.calls - {c} == s.calls - {c} && t.logged == s.logged
  {
    hide Apply, Enabled;
    assert Run(s, [], s);
    own, t := [], s;
    if s.calls[c].Checking? {
      CheckEffect(s, c);
      RunNext(s, own, t, Check(c));
      own, t := own + [Check(c)], Apply(s, Check(c));
    }
    if t.calls[c].Blocked? {
      GiveUpEffect(t, c);
      RunNext(s, own, t, GiveUp(c));
      own, t := own + [GiveUp(c)], Apply(t, GiveUp(c));
    }
  }

  lemma CheckEffect(s: State, c: nat)
    requires c in s.calls && s.calls[c].Checking?
    ensures Enabled(s, Check(c))
    ensures var u := Apply(s, Check(c));
      u.calls - {c} == s.calls - {c} && u.logged == s.logged && c in u.calls && !u.calls[c].Running? && u.calls[c].trailer == s.calls[c].trailer &&
      if s.clientSeq >= s.calls[c].trailer then u.calls[c] == Ended(s.calls[c].trailer, true) else u.calls[c].Blocked?
  {
  }

  lemma GiveUpEffect(s: State, c: nat)
    requires c in s.calls && s.calls[c].Blocked?
    ensures Enabled(s, GiveUp(c))
    ensures var u := Apply(s, GiveUp(c));
      u.calls - {c} == s.calls - {c} && u.logged == s.logged && c in u.calls && u.calls[c] == Ended(s.calls[c].trailer, false)
  {
  }

  /** The steps of the relay and ReadLogs. */
  predicate OfServer(step: Step) {
    OfRelay(step) || step.SendOk? || step.SendFails? || step.ReaderStops? || step.CloseInbox? || step.ReaderReturns?
  }

  /** The next step of a ReadLogs that is to stop; a send may fail at any time. */
  function Stop(s: State): Step {
    if s.hand != [] then SendFails
    else if s.reader == Serving then ReaderStops
    else if s.reader == Flushing && s.relay == Closed then ReaderReturns
    else if s.reader == Closing && s.holding == [] then CloseInbox
    else if s.relay == Top then RelayTop
    else if s.reader == Closing then RelayReceive
    else if s.relay != Draining then RelaySeesClose
    else if s.buf == [] then RelayClose
    else RelaySend
  }

  lemma StopEnabled(s: State)
    requires Control(s) && s.reader != Returned
    ensures Enabled(s, Stop(s)) && OfServer(Stop(s))
  {
  }

  lemma ServerStepsEnd(s: State, step: Step)
    requires Inv(s) && Enabled(s, step) && OfServer(step)
    ensures 0 <= Work(Apply(s, step)) < Work(s)
  {
  }

  /** ReadLogs can always be stopped, and has left its loop once a send has failed: from every state, by finitely many steps
      of the relay and its own, it gets to its end, however entries pile up and sends fail. */
  lemma ReadLogsReturns(base: nat, steps: seq<Step>, s: State) returns (own: seq<Step>, t: State)
    requires Run(Init(base), steps, s)
    ensures (s.broken ==> s.reader != Serving) && (s.reader != Returned ==> Enabled(s, Stop(s)) && OfServer(Stop(s)))
    ensures Run(s, own, t) && (forall i :: 0 <= i < |own| ==> OfServer(own[i])) && t.reader == Returned
  {
    Reachable(base, steps, s);
    if s.reader != Returned { StopEnabled(s); }
    own, t := StopsAlone(s);
  }

  lemma {:induction false} StopsAlone(s: State) returns (own: seq<Step>, t: State)
    requires Inv(s)
    ensures Run(s, own, t) && (forall i :: 0 <= i < |own| ==> OfServer(own[i])) && t.reader == Returned
    decreases Work(s)
  {
    hide Inv, Enabled, Apply, Work, OfServer;
    if s.reader == Returned {
      own, t := [], s;
    } else {
      assert Control(s) by { InvControl(s); }
      StopEnabled(s);
      StepKeepsInv(s, Stop(s));
      ServerStepsEnd(s, Stop(s));
      own, t := StopsAlone(Apply(s, Stop(s)));
      own := [Stop(s)] + own;
    }
  }

  lemma InvControl(s: State)
    requires Inv(s)
    ensures Control(s)
  {
  }

  /** A call that waits, blocked or not, gets through once the internal steps have come to their end, however they were
      scheduled: it can be woken and check, and its wait succeeds, if its subscription has had an entry or
      there has never been one. */
  lemma CallGetsThrough(base: nat, before: seq<Step>, s: State, steps: seq<Step>, t: State, c: nat)
    requires Run(Init(base), before, s) && !s.broken && !s.clientDone
    requires Run(s, steps, t) && forall i :: 0 <= i < |steps| ==> Internal(steps[i])
    requires forall step :: Internal(step) ==> !Enabled(t, step)
    requires c in s.calls && (s.calls[c].Checking? || s.calls[c].Blocked?) && (s.emitted != [] || s.calls[c].trailer == 0)
    ensures t.calls == s.calls && Succeeds(t, c)
  {
    hide Inv, Enabled, Apply, Succeeds, Work;
    AllAcknowledged(base, before, s, steps, t);
    Reachable(base, before, s);
    RunKeepsInv(s, steps, t);
    WakesAndSucceeds(t, c);
  }

  /** The call is woken if it is blocked, checks, and ends well. */
  ghost predicate Succeeds(s: State, c: nat)
    requires c in s.calls && (s.calls[c].Checking? || s.calls[c].Blocked?)
  {
    (s.calls[c].Blocked? ==> Enabled(s, Wake(c))) &&
    var u := if s.calls[c].Blocked? then s.(calls := s.calls[c := Checking(s.calls[c].trailer)]) else s;
    (s.calls[c].Blocked? ==> u == Apply(s, Wake(c))) && Enabled(u, Check(c)) && Apply(u, Check(c)).calls[c] == Ended(s.calls[c].trailer, true)
  }

  lemma WakesAndSucceeds(s: State, c: nat)
    requires Inv(s) && Acked(s) == |s.emitted|
    requires c in s.calls && (s.calls[c].Checking? || s.calls[c].Blocked?) && (s.emitted != [] || s.calls[c].trailer == 0)
    ensures Succeeds(s, c)
  {
    assert s.clientSeq >= s.calls[c].trailer;
  }

  /** So on a server that logged before the subscription, a call that logs nothing blocks, with nothing on
      the way that could wake it. */
  lemma LaterSubscriptionBlocks()
    ensures Run(Init(5), [BeginCall(0), HandlerReturns(0), Check(0)], Init(5).(calls := map[0 := Blocked(5, 0)], waiters := {0}, channels := 1))
  {
    var s1 := Init(5).(calls := map[0 := Running]);
    var s2 := s1.(calls := map[0 := Checking(5)]);
    var s3 := s2.(calls := map[0 := Blocked(5, 0)], waiters := {0}, channels := 1);
    assert Apply(Init(5), BeginCall(0)) == s1;
    assert Apply(s1, HandlerReturns(0)) == s2;
    assert Apply(s2, Check(0)) == s3;
    assert Run(s3, [], s3);
    assert [BeginCall(0), HandlerReturns(0), Check(0)][1..] == [HandlerReturns(0), Check(0)];
    assert [HandlerReturns(0), Check(0)][1..] == [Check(0)] && [Check(0)][1..] == [];
    assert Run(s2, [Check(0)], s3);
    assert Run(s1, [HandlerReturns(0), Check(0)], s3);
  }
}

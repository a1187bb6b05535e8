/** The life cycle of an SSH command under sequential use, with the goroutines that copy its output into pipes.
    Each doAsync in it either succeeds, or returns an error (of its body or of a cancelled context) and then its
    clean function runs once, after the body, as module DoAsync proves.  What the network does is a parameter. */
module SshCmd {

  datatype CmdState = New | Started | Closing | Done

  function Rank(s: CmdState): nat { match s case New => 0 case Started => 1 case Closing => 2 case Done => 3 }

  /** A pipe made by StdoutPipe or StderrPipe: late if it was made when the pipes had already been closed. */
  datatype Pipe = NoPipe | Pipe(closed: bool, late: bool)

  predicate SamePipe(p: Pipe, q: Pipe) { p.Pipe? == q.Pipe? && (p.Pipe? ==> p.late == q.late && (p.closed ==> q.closed)) }

  /** What closePipes does to a pipe. */
  function Closed(p: Pipe): Pipe { if p.Pipe? then p.(closed := true) else p }

  /** What happens on the network during Start: a session opens and gets its pipes, the context is cancelled meanwhile,
      and the command starts before the context is cancelled. */
  datatype StartOutcome = StartOutcome(opens: bool, setsUp: bool, cancelled: bool, starts: bool) {
    predicate Good() { opens && setsUp && !cancelled && starts }
  }

  /** What happens during Wait: the command exits well, the session closes well, the context is cancelled, and an
      Abort before or during the wait is noticed in time. */
  datatype WaitOutcome = WaitOutcome(exitsWell: bool, closesWell: bool, cancelled: bool, noticesAbort: bool) {
    predicate Good(aborted: bool) { exitsWell && closesWell && !cancelled && !(aborted && noticesAbort) }
  }

  class Cmd {
    /** Whether there is an SSH connection. */
    const connected: bool
    var state: CmdState
    var stdoutSet: bool
    var stderrSet: bool
    var stdoutPipe: Pipe
    var stderrPipe: Pipe
    /** onceClose has run. */
    var pipesClosed: bool
    var aborted: bool
    /** The context of the command is done: its deadline has been reached, or it was cancelled. */
    var expired: bool
    /** setupSession has succeeded, and so has started a copier for each pipe. */
    var copying: bool
    /** The copiers that have come to their end. */
    var stdoutCopied: bool
    var stderrCopied: bool
    /** The index of the session among those opened so far; -1 is none. */
    var sess: int
    /** For each session opened so far, how many closers it has been handed to. */
    var closers: seq<nat>

    /** A pipe is closed by closePipes, if it exists when that first runs, or by its copier, and by nothing else. */
    ghost predicate PipeFine(p: Pipe, copied: bool) reads this {
      (copied ==> copying) && (p.Pipe? ==> (p.late ==> pipesClosed) && (p.closed <==> (pipesClosed && !p.late) || copied))
    }

    ghost predicate Valid() reads this {
      |closers| <= 1 && (copying ==> |closers| == 1) &&
      (state == New ==> closers == []) && (state != Done ==> (pipesClosed <==> aborted)) &&
      (state == Started ==> sess == 0 && closers == [0] && copying) &&
      (state == Done ==> pipesClosed && OneCloserEach()) &&
      state != Closing &&
      (stdoutPipe.Pipe? ==> stdoutSet) && (stderrPipe.Pipe? ==> stderrSet) &&
      PipeFine(stdoutPipe, stdoutCopied) && PipeFine(stderrPipe, stderrCopied)
    }

    /** Every session opened so far has been handed to exactly one closer. */
    ghost predicate OneCloserEach() reads this { forall i :: 0 <= i < |closers| ==> closers[i] == 1 }

    constructor (connected: bool, stdoutSet: bool, stderrSet: bool)
      ensures Valid() && state == New && this.connected == connected && !pipesClosed && !aborted && !expired && closers == []
      ensures this.stdoutSet == stdoutSet && this.stderrSet == stderrSet && stdoutPipe == stderrPipe == NoPipe
    {
      this.connected, this.stdoutSet, this.stderrSet := connected, stdoutSet, stderrSet;
      state, stdoutPipe, stderrPipe, pipesClosed, aborted, expired, sess := New, NoPipe, NoPipe, false, false, false, -1;
      copying, stdoutCopied, stderrCopied := false, false, false;
      closers := [];
    }

    method StdoutPipe() returns (ok: bool)
      requires Valid()
      modifies this`stdoutSet, this`stdoutPipe
      ensures Valid()
      ensures ok <==> state == New && !old(stdoutSet)
      ensures stdoutPipe == if ok then Pipe(false, pipesClosed) else old(stdoutPipe)
    {
      if state != New || stdoutSet {
        return false;
      }
      stdoutSet, stdoutPipe := true, Pipe(false, pipesClosed);
      return true;
    }

    method StderrPipe() returns (ok: bool)
      requires Valid()
      modifies this`stderrSet, this`stderrPipe
      ensures Valid()
      ensures ok <==> state == New && !old(stderrSet)
      ensures stderrPipe == if ok then Pipe(false, pipesClosed) else old(stderrPipe)
    {
      if state != New || stderrSet {
        return false;
      }
      stderrSet, stderrPipe := true, Pipe(false, pipesClosed);
      return true;
    }

    /** closePipes: only the first call does something. */
    method ClosePipes()
      requires PipeFine(stdoutPipe, stdoutCopied) && PipeFine(stderrPipe, stderrCopied)
      modifies this`pipesClosed, this`stdoutPipe, this`stderrPipe
      ensures pipesClosed && PipeFine(stdoutPipe, stdoutCopied) && PipeFine(stderrPipe, stderrCopied)
      ensures stdoutPipe == if old(pipesClosed) then old(stdoutPipe) else Closed(old(stdoutPipe))
      ensures stderrPipe == if old(pipesClosed) then old(stderrPipe) else Closed(old(stderrPipe))
    {
      if pipesClosed {
        return;
      }
      pipesClosed := true;
      if stdoutPipe.Pipe? {
        stdoutPipe := stdoutPipe.(closed := true);
      }
      if stderrPipe.Pipe? {
        stderrPipe := stderrPipe.(closed := true);
      }
    }

    /** A step of a goroutine of setupSession, possible at any time once it runs: its stream has ended, and it
        closes its pipe. */
    method CopierEnds(stdout: bool)
      requires Valid() && copying
      modifies this`stdoutPipe, this`stderrPipe, this`stdoutCopied, this`stderrCopied
      ensures Valid()
      ensures stdoutPipe == (if stdout then Closed(old(stdoutPipe)) else old(stdoutPipe)) && stdoutCopied == (old(stdoutCopied) || stdout)
      ensures stderrPipe == (if stdout then old(stderrPipe) else Closed(old(stderrPipe))) && stderrCopied == (old(stderrCopied) || !stdout)
    {
      if stdout {
        stdoutPipe, stdoutCopied := Closed(stdoutPipe), true;
      } else {
        stderrPipe, stderrCopied := Closed(stderrPipe), true;
      }
    }

    /** The context of the command becomes done, at any time; nothing watches for that but calls of doAsync. */
    method Expire()
      requires Valid()
      modifies this`expired
      ensures Valid() && expired
    {
      expired := true;
    }

    /** Whatever the context does, a pipe of a started command is closed exactly if the command was aborted, after the pipe
        was made, or its copier has come to its end. */
    lemma OpenWhileStarted()
      requires Valid() && state == Started
      ensures stdoutPipe.Pipe? ==> (stdoutPipe.closed <==> (aborted && !stdoutPipe.late) || stdoutCopied)
      ensures stderrPipe.Pipe? ==> (stderrPipe.closed <==> (aborted && !stderrPipe.late) || stderrCopied)
    {
    }

    /** startSession. */
    method StartSession(o: StartOutcome) returns (ok: bool)
      requires Valid()
      modifies this`state, this`sess, this`closers, this`copying, this`pipesClosed, this`stdoutPipe, this`stderrPipe
      ensures Valid() && Rank(old(state)) <= Rank(state)
      ensures SamePipe(old(stdoutPipe), stdoutPipe) && SamePipe(old(stderrPipe), stderrPipe)
      ensures ok <==> old(state) == New && connected && o.opens && o.setsUp && !o.cancelled && !expired
      ensures ok ==> stdoutPipe == old(stdoutPipe) && stderrPipe == old(stderrPipe)
      ensures if old(state) != New || !connected then unchanged(this)
              else state == (if ok then Started else Done) && |closers| == (if o.opens then 1 else 0) && (copying <==> o.opens && o.setsUp)
    {
      if state != New || !connected {
        return false;
      }
      state := Started;
      if o.opens {
        closers := closers + [0];
        copying := o.setsUp;
      }
      if !o.opens || !o.setsUp || o.cancelled || expired {
        if o.opens {
          closers := closers[0 := closers[0] + 1];
        }
        state := Done;
        ClosePipes();
        return false;
      }
      sess := |closers| - 1;
      return true;
    }

    /** Start.  A start that fails on a new, connected command leaves it done, with every session it
        opened handed to exactly one closer; the other failures change nothing but the output defaults. */
    method Start(o: StartOutcome) returns (ok: bool)
      requires Valid()
      modifies this
      ensures Valid() && Rank(old(state)) <= Rank(state) && aborted == old(aborted) && expired == old(expired)
      ensures ok ==> stdoutPipe == old(stdoutPipe) && stderrPipe == old(stderrPipe)
      ensures SamePipe(old(stdoutPipe), stdoutPipe) && SamePipe(old(stderrPipe), stderrPipe) && stdoutSet && stderrSet
      ensures ok <==> old(state) == New && connected && o.Good() && !expired
      ensures if old(state) != New || !connected then state == old(state) && closers == old(closers)
              else state == (if ok then Started else Done) && |closers| == (if o.opens then 1 else 0) && (copying <==> o.opens && o.setsUp)
    {
      stdoutSet, stderrSet := true, true;
      ok := StartSession(o);
      if !ok {
        return;
      }
      if !o.starts {
        closers := closers[sess := closers[sess] + 1];
        state := Done;
        ClosePipes();
        return false;
      }
    }

    /** Wait: works once after a successful start, and hands the session to its one closer, also if the
        command was aborted and the wait therefore fails. */
    method Wait(o: WaitOutcome) returns (ok: bool)
      requires Valid()
      modifies this`state, this`closers, this`pipesClosed, this`stdoutPipe, this`stderrPipe
      ensures Valid() && Rank(old(state)) <= Rank(state)
      ensures SamePipe(old(stdoutPipe), stdoutPipe) && SamePipe(old(stderrPipe), stderrPipe)
      ensures ok <==> old(state) == Started && o.Good(aborted) && !expired
      ensures if old(state) == Started then state == Done else unchanged(this)
    {
      if state != Started {
        return false;
      }
      state := Closing;
      var cancelled := o.cancelled || expired || (aborted && o.noticesAbort);
      ok := o.exitsWell && !cancelled;
      ClosePipes();
      closers := closers[sess := closers[sess] + 1];
      ok := ok && o.closesWell && !cancelled;
      state := Done;
    }

    /** Abort may be called once. */
    method Abort()
      requires Valid() && !aborted
      modifies this`aborted, this`pipesClosed, this`stdoutPipe, this`stderrPipe
      ensures Valid() && aborted && pipesClosed
      ensures stdoutPipe == if old(pipesClosed) then old(stdoutPipe) else Closed(old(stdoutPipe))
      ensures stderrPipe == if old(pipesClosed) then old(stderrPipe) else Closed(old(stderrPipe))
    {
      ClosePipes();
      aborted := true;
    }

    /** Run: whatever fails, at the end every session that was opened has been handed to exactly one
        closer, and every pipe that closePipes could see has been closed. */
    method Run(o: StartOutcome, w: WaitOutcome) returns (ok: bool)
      requires Valid()
      modifies this
      ensures Valid() && aborted == old(aborted) && expired == old(expired)
      ensures SamePipe(old(stdoutPipe), stdoutPipe) && SamePipe(old(stderrPipe), stderrPipe)
      ensures ok <==> old(state) == New && connected && o.Good() && w.Good(aborted) && !expired
      ensures old(state) == New && connected ==>
        state == Done && (copying <==> o.opens && o.setsUp) && OneCloserEach()
    {
      ok := Start(o);
      if ok {
        ok := Wait(w);
      }
    }

    /** When a command is done, the streams of its session end, and its copiers come to their end.  Then a
        pipe is closed, unless it was made after the pipes had been closed and no copier was started for it. */
    method Settle()
      requires Valid() && state == Done
      modifies this`stdoutPipe, this`stderrPipe, this`stdoutCopied, this`stderrCopied
      ensures Valid()
      ensures SamePipe(old(stdoutPipe), stdoutPipe) && SamePipe(old(stderrPipe), stderrPipe)
      ensures stdoutPipe.Pipe? ==> (stdoutPipe.closed <==> !stdoutPipe.late || copying)
      ensures stderrPipe.Pipe? ==> (stderrPipe.closed <==> !stderrPipe.late || copying)
    {
      if copying {
        CopierEnds(true);
        CopierEnds(false);
      }
    }
  }

  /** A command that is run to its end: pipes are made before or after an Abort, the command is run, and everything comes to
      its end.  A pipe stays open for good exactly if it was made after an Abort and the session could not be set up. */
  method RunWithPipes(abortFirst: bool, o: StartOutcome, w: WaitOutcome) returns (c: Cmd, ok: bool)
    ensures c.Valid() && c.state == Done && c.stdoutPipe.Pipe? && c.stderrPipe.Pipe?
    ensures !c.stdoutPipe.closed <==> abortFirst && !(o.opens && o.setsUp)
    ensures !c.stderrPipe.closed <==> abortFirst && !(o.opens && o.setsUp)
    ensures ok <==> o.Good() && w.Good(abortFirst)
  {
    c := new Cmd(true, false, false);
    if abortFirst {
      c.Abort();
    }
    var madeOut := c.StdoutPipe();
    var madeErr := c.StderrPipe();
    ok := c.Run(o, w);
    c.Settle();
  }

  /** Such a command: aborted, given a pipe, and then run while no session can be opened. */
  method LatePipeStaysOpen() returns (c: Cmd)
    ensures c.Valid() && c.state == Done && c.stdoutPipe == Pipe(false, true)
  {
    var ok;
    c, ok := RunWithPipes(true, StartOutcome(false, false, false, false), WaitOutcome(true, true, false, true));
    assert !c.stdoutPipe.closed;
  }

  /** Nor does the deadline close a pipe: the command is started, its deadline is reached, and the pipe stays open, as long
      as the session's stream goes on and Wait is not called. */
  method DeadlineLeavesPipeOpen() returns (c: Cmd)
    ensures c.Valid() && c.state == Started && c.expired && !c.aborted && c.stdoutPipe == Pipe(false, false)
  {
    c := new Cmd(true, false, false);
    var made := c.StdoutPipe();
    var ok := c.Start(StartOutcome(true, true, false, true));
    c.Expire();
  }
}

/** A job: a child process that clients pause, resume, cancel and wait for (`Job` in job.rs). */
module Jobs {
  import opened Base

  /** `ExitStatus` */
  datatype Exit = Exited(code: nat) | Signaled(signal: NonZero) | Neither

  datatype Process =
    | Running(stopped: bool, told: set<Signal>)   // and the signals that asked it to end
    | Dead(exit: Exit)       // ended, not waited for: signals still find its pid
    | Reaped(exit: Exit)     // waited for: it has no pid any more

  datatype State = State(process: Process, paused: bool, exitCode: Option<int>)

  const SPAWNED := State(Running(false, {}), false, None)

  /** What clients call, with the outcomes of the system calls made on the way:
      `kill` and `cont` say whether a signal to a process with a pid is delivered. */
  datatype Event =
    | Pause(kill: bool)
    | Resume(kill: bool)
    | Cancel(force: bool, tried: bool, kill: bool, cont: bool)
    | Wait(cont: bool, waited: bool, exit: Exit)   // `exit` is how a still running process will end
    | Die(exit: Exit)                              // the process ends

  datatype Outcome = Fine | Failed | Returned(code: int) | Hangs

  datatype Signal = SigStop | SigCont | SigTerm | SigKill

  /** The exit code clients are shown: a signal is its negated number. */
  function CodeOf(exit: Exit): Option<int> {
    match exit
    case Exited(code) => Some(code)
    case Signaled(signal) => Some(-(signal as int))
    case Neither => None
  }

  /** The process waits to be continued: it is stopped and was not killed, which works
      on stopped processes too. */
  predicate IsStopped(p: Process) { p.Running? && p.stopped && SigKill !in p.told }

  // ----- one call, as a function of the state -----

  /** `send_signal`. The end of a process told to terminate is an event of its own. */
  function SendSignal(p: Process, signal: Signal, kill: bool): (Process, bool) {
    if p.Reaped? || !kill then (p, false)
    else if !p.Running? then (p, true)
    else
      match signal
      case SigStop => (p.(stopped := true), true)
      case SigCont => (p.(stopped := false), true)
      case _ => (p.(told := p.told + {signal}), true)
  }

  function PauseJob(s: State, kill: bool): (State, Outcome) {
    if s.paused then (s, Failed)
    else
      var (p, ok) := SendSignal(s.process, SigStop, kill);
      (s.(process := p, paused := true), if ok then Fine else Failed)
  }

  function ResumeJob(s: State, kill: bool): (State, Outcome) {
    if !s.paused then (s, Failed)
    else
      var (p, ok) := SendSignal(s.process, SigCont, kill);
      (s.(process := p, paused := false), if ok then Fine else Failed)
  }

  /** What reaping an ended process does to the job. */
  function Reap(s: State, exit: Exit): State {
    s.(process := Reaped(exit), exitCode := if CodeOf(exit).Some? then CodeOf(exit) else s.exitCode)
  }

  function CancelJob(s: State, force: bool, tried: bool, kill: bool, cont: bool): (State, Outcome) {
    if s.exitCode.Some? then (s, Fine)
    else if !tried then (s, Failed)
    else if !s.process.Running? then
      (Reap(s, s.process.exit), if CodeOf(s.process.exit).Some? then Fine else Failed)
    else
      var (p, ok) := SendSignal(s.process, if force then SigKill else SigTerm, kill);
      if !ok then (s, Failed)
      else if s.paused then ResumeJob(s.(process := p), cont)
      else (s.(process := p), Fine)
  }

  function WaitInternal(s: State, waited: bool, exit: Exit): (State, Outcome) {
    if s.exitCode.Some? then (s, Returned(s.exitCode.value))
    else if !waited then (s, Failed)
    else if IsStopped(s.process) then (s, Hangs)
    else
      var end := if s.process.Running? then exit else s.process.exit;
      (Reap(s, end), if CodeOf(end).Some? then Returned(CodeOf(end).value) else Failed)
  }

  function WaitJob(s: State, cont: bool, waited: bool, exit: Exit): (State, Outcome) {
    if s.paused then
      var (s1, resumed) := ResumeJob(s, cont);
      if resumed.Failed? then (s1, Failed) else WaitInternal(s1, waited, exit)
    else WaitInternal(s, waited, exit)
  }

  function Act(s: State, e: Event): (State, Outcome) {
    match e
    case Pause(kill) => PauseJob(s, kill)
    case Resume(kill) => ResumeJob(s, kill)
    case Cancel(force, tried, kill, cont) => CancelJob(s, force, tried, kill, cont)
    case Wait(cont, waited, exit) => WaitJob(s, cont, waited, exit)
    case Die(exit) => (if s.process.Running? then s.(process := Dead(exit)) else s, Fine)
  }

  function Run(trace: seq<Event>): State
    decreases |trace|
  {
    if trace == [] then SPAWNED else Act(Run(trace[..|trace| - 1]), trace[|trace| - 1]).0
  }

  /** The answer to event `i` of a trace. */
  function Answer(trace: seq<Event>, i: nat): Outcome
    requires i < |trace|
  {
    Act(Run(trace[..i]), trace[i]).1
  }

  // ----- the objects -----

  class Child {
    var process: Process

    constructor ()
      ensures process == Running(false, {})
    {
      process := Running(false, {});
    }

    method Kill(signal: Signal, kill: bool) returns (ok: bool)
      modifies this
      ensures (process, ok) == SendSignal(old(process), signal, kill)
    {
      if process.Reaped? || !kill { return false; }
      if process.Running? {
        match signal {
          case SigStop => process := process.(stopped := true);
          case SigCont => process := process.(stopped := false);
          case _ => process := process.(told := process.told + {signal});
        }
      }
      return true;
    }
  }

  class Job {
    const child: Child
    var paused: bool
    var exitCode: Option<int>

    ghost function Now(): State
      reads this, child
    {
      State(child.process, paused, exitCode)
    }

    constructor ()
      ensures Now() == SPAWNED && fresh(child)
    {
      paused, exitCode := false, None;
      child := new Child();
    }

    method Pause(kill: bool) returns (r: Outcome)
      modifies this, child
      ensures (Now(), r) == PauseJob(old(Now()), kill)
    {
      if paused { return Failed; }
      var ok := child.Kill(SigStop, kill);
      paused := true;
      r := if ok then Fine else Failed;
    }

    method Resume(kill: bool) returns (r: Outcome)
      modifies this, child
      ensures (Now(), r) == ResumeJob(old(Now()), kill)
    {
      if !paused { return Failed; }
      var ok := child.Kill(SigCont, kill);
      paused := false;
      r := if ok then Fine else Failed;
    }

    method UpdateExitCode(exit: Exit) returns (ok: bool)
      modifies this, child
      ensures Now() == Reap(old(Now()), exit) && ok == CodeOf(exit).Some?
    {
      child.process := Reaped(exit);
      match exit {
        case Exited(code) => exitCode := Some(code); return true;
        case Signaled(signal) => exitCode := Some(-(signal as int)); return true;
        case Neither => return false;
      }
    }

    method Cancel(force: bool, tried: bool, kill: bool, cont: bool) returns (r: Outcome)
      modifies this, child
      ensures (Now(), r) == CancelJob(old(Now()), force, tried, kill, cont)
    {
      if exitCode.None? {
        if !tried { return Failed; }
        if !child.process.Running? {
          var ok := UpdateExitCode(child.process.exit);
          if !ok { return Failed; }
        }
      }
      if exitCode.Some? { return Fine; }
      var ok := child.Kill(if force then SigKill else SigTerm, kill);
      if !ok { return Failed; }
      if paused {
        r := Resume(cont);
        return;
      }
      return Fine;
    }

    method Wait(cont: bool, waited: bool, exit: Exit) returns (r: Outcome)
      modifies this, child
      ensures (Now(), r) == WaitJob(old(Now()), cont, waited, exit)
    {
      if paused {
        var resumed := Resume(cont);
        if resumed.Failed? { return Failed; }
      }
      if exitCode.Some? { return Returned(exitCode.value); }
      if !waited { return Failed; }
      if IsStopped(child.process) { return Hangs; }
      var ok := UpdateExitCode(if child.process.Running? then exit else child.process.exit);
      if !ok { return Failed; }
      r := Returned(exitCode.value);
    }
  }

  // ----- a job never waits for a process it has stopped itself -----

  /** Signals fail only when the process has no pid any more. */
  predicate Delivered(e: Event) {
    match e
    case Pause(kill) => kill
    case Resume(kill) => kill
    case Cancel(_, _, kill, cont) => kill && cont
    case Wait(cont, _, _) => cont
    case Die(_) => true
  }

  ghost predicate AllDelivered(trace: seq<Event>) { forall i :: 0 <= i < |trace| ==> Delivered(trace[i]) }

  /** A process that is stopped is known to be paused. */
  predicate KnowsStopped(s: State) { IsStopped(s.process) ==> s.paused }

  /** A blocking wait hangs exactly when the process is stopped and the job does not
      know it, provided the wait itself does not fail. */
  lemma WaitHangsIff(s: State, cont: bool, exit: Exit)
    requires s.exitCode.None?
    ensures WaitJob(s, cont, true, exit).1.Hangs? <==> !KnowsStopped(s)
  {
  }

  /** Whether an event continues a stopped process in vain: `resume` clears the flag and
      the signal is not delivered, be it called by a client, by `cancel` or by `wait`. */
  predicate LosesContinue(s: State, e: Event) {
    && s.paused && IsStopped(s.process)
    && match e
       case Resume(kill) => !kill
       case Cancel(force, tried, kill, cont) => s.exitCode.None? && tried && kill && !force && !cont
       case Wait(cont, _, _) => !cont
       case _ => false
  }

  /** Every event leaves a job that knows its state knowing it, except exactly those. */
  lemma ActKnowsIff(s: State, e: Event)
    requires KnowsStopped(s) && CodeAgrees(s)
    ensures KnowsStopped(Act(s, e).0) <==> !LosesContinue(s, e)
  {
  }

  /** No wait called at this moment would hang. */
  ghost predicate WaitsEnd(s: State) {
    forall cont, exit :: !WaitJob(s, cont, true, exit).1.Hangs?
  }

  lemma WaitsEndIff(s: State)
    requires CodeAgrees(s)
    ensures WaitsEnd(s) <==> KnowsStopped(s)
  {
    if !KnowsStopped(s) {
      assert WaitJob(s, true, true, Neither).1.Hangs?;
    }
  }

  predicate NoneLost(trace: seq<Event>)
    decreases |trace|
  {
    trace == [] ||
    (var n := |trace| - 1; NoneLost(trace[..n]) && !LosesContinue(Run(trace[..n]), trace[n]))
  }

  ghost predicate WaitsAlwaysEnd(trace: seq<Event>)
    decreases |trace|
  {
    WaitsEnd(Run(trace)) && (trace != [] ==> WaitsAlwaysEnd(trace[..|trace| - 1]))
  }

  /** Over every run, whatever fails: at no moment would a wait hang exactly when no
      continue signal was lost on the way. */
  lemma {:induction false} WaitsAlwaysEndIff(trace: seq<Event>)
    ensures WaitsAlwaysEnd(trace) <==> NoneLost(trace)
    decreases |trace|
  {
    ExitCodeIsExit(trace);
    WaitsEndIff(Run(trace));
    if trace != [] {
      var n := |trace| - 1;
      WaitsAlwaysEndIff(trace[..n]);
      ExitCodeIsExit(trace[..n]);
      WaitsEndIff(Run(trace[..n]));
      if WaitsAlwaysEnd(trace[..n]) {
        assert WaitsEnd(Run(trace[..n]));
        ActKnowsIff(Run(trace[..n]), trace[n]);
      }
    }
  }

  /** In every run whose signals are delivered, a live process is stopped exactly while
      the job is paused. */
  lemma {:induction false} StoppedIffPaused(trace: seq<Event>)
    requires AllDelivered(trace) && Run(trace).process.Running?
    ensures Run(trace).process.stopped <==> Run(trace).paused
    decreases |trace|
  {
    if trace != [] {
      var n := |trace| - 1;
      assert Run(trace[..n]).process.Running?;
      StoppedIffPaused(trace[..n]);
      assert Delivered(trace[n]);
    }
  }

  /** In every run whose signals are delivered, no wait hangs, and after a successful
      cancel a process that has not ended yet has been sent the right signal and is free
      to act on it. */
  lemma JobsNeverHang(trace: seq<Event>, i: nat)
    requires AllDelivered(trace) && i < |trace|
    ensures !Answer(trace, i).Hangs?
    ensures var process := Run(trace[..i + 1]).process;
      trace[i].Cancel? && Answer(trace, i).Fine? && process.Running? ==>
        !process.stopped && (if trace[i].force then SigKill else SigTerm) in process.told
  {
    if Run(trace[..i]).process.Running? {
      StoppedIffPaused(trace[..i]);
    }
    assert trace[..i + 1][..i] == trace[..i];
    ExitCodeIsExit(trace[..i]);
  }

  /** The hypothesis is needed: after a resume whose signal is not delivered, a wait
      hangs on a process the job itself has stopped. */
  lemma LostContinueHangs(trace: seq<Event>)
    requires trace == [Pause(true), Resume(false), Wait(true, true, Exited(0))]
    ensures Answer(trace, 2).Hangs?
  {
    assert trace[..2][..1] == trace[..1] && trace[..1][..0] == [];
    assert Run(trace[..1]) == State(Running(true, {}), true, None);
    assert Run(trace[..2]) == State(Running(true, {}), false, None);
  }

  // ----- the exit code -----

  /** The code is known exactly when the process was reaped with one, and it is the
      process's own. */
  predicate CodeAgrees(s: State) {
    match s.process
    case Reaped(exit) => s.exitCode == CodeOf(exit)
    case _ => s.exitCode.None?
  }

  lemma {:induction false} ExitCodeIsExit(trace: seq<Event>)
    ensures CodeAgrees(Run(trace))
    decreases |trace|
  {
    if trace != [] {
      ExitCodeIsExit(trace[..|trace| - 1]);
    }
  }

  lemma ActKeepsCode(s: State, e: Event)
    requires CodeAgrees(s)
    ensures s.exitCode.Some? ==> Act(s, e).0.exitCode == s.exitCode
    ensures Act(s, e).1.Returned? ==> Act(s, e).0.exitCode == Some(Act(s, e).1.code)
    ensures s.process.Reaped? ==> Act(s, e).0.process == s.process
  {
  }

  /** The exit code is written once: from then on, whatever is called and whatever
      fails, it stays, and every wait that returns a code returns that one. */
  lemma {:induction false} ExitCodeIsWriteOnce(trace: seq<Event>, i: nat, j: nat)
    requires i <= j < |trace| && Answer(trace, i).Returned?
    ensures Run(trace[..j + 1]).exitCode == Some(Answer(trace, i).code)
    ensures Answer(trace, j).Returned? ==> Answer(trace, j) == Answer(trace, i)
    decreases j
  {
    assert trace[..j + 1][..j] == trace[..j];
    ExitCodeIsExit(trace[..j]);
    ActKeepsCode(Run(trace[..j]), trace[j]);
    if i < j {
      ExitCodeIsWriteOnce(trace, i, j - 1);
    }
  }

  /** Every later wait is answered with the code a wait once returned, whatever the system
      calls do, unless the job was paused again in the meantime: an ended process cannot
      be resumed. */
  lemma LaterWaitsReturnIt(trace: seq<Event>, i: nat, j: nat)
    requires i < j < |trace| && Answer(trace, i).Returned? && trace[j].Wait?
    ensures Answer(trace, j) == if Run(trace[..j]).paused then Failed else Answer(trace, i)
  {
    ExitCodeIsWriteOnce(trace, i, j - 1);
    ExitCodeIsExit(trace[..j]);
  }

  /** How a process ends that is waited for. */
  function End(p: Process, exit: Exit): Exit {
    match p
    case Running(_, _) => exit
    case Dead(e) => e
    case Reaped(e) => e
  }

  /** How the events of a run are answered, call by call.  A wait returns a code exactly
      when a paused job can be resumed and the code is known already or the process can be
      waited for, is not left stopped, and ends with one. */
  lemma WaitReturnsIff(trace: seq<Event>, i: nat)
    requires i < |trace| && trace[i].Wait?
    ensures var s := Run(trace[..i]);
      && (Answer(trace, i).Returned? <==>
           && (s.paused ==> trace[i].cont && !s.process.Reaped?)
           && (s.exitCode.Some? ||
                (trace[i].waited && (s.paused || !IsStopped(s.process)) && !End(s.process, trace[i].exit).Neither?)))
      && (Answer(trace, i).Hangs? <==>
           !s.paused && s.exitCode.None? && trace[i].waited && IsStopped(s.process))
      && !Answer(trace, i).Fine?
  {
    ExitCodeIsExit(trace[..i]);
  }

  /** Pausing works once and resuming works when paused, on a process that still has a
      pid; canceling works when the process has ended, or when every signal is delivered. */
  lemma CallsAreAnswered(trace: seq<Event>, i: nat)
    requires i < |trace| && (trace[i].Pause? || trace[i].Resume? || trace[i].Cancel?)
    ensures var s := Run(trace[..i]);
      Answer(trace, i) == if
        match trace[i]
        case Pause(kill) => !s.paused && !s.process.Reaped? && kill
        case Resume(kill) => s.paused && !s.process.Reaped? && kill
        case Cancel(_, tried, kill, cont) =>
          s.exitCode.Some? ||
          (tried && if s.process.Running? then kill && (s.paused ==> cont) else !s.process.exit.Neither?)
        case _ => false
      then Fine else Failed
  {
    ExitCodeIsExit(trace[..i]);
  }

  /** Whether the job is paused after an event, whatever fails: a pause sets the flag, a
      resume and a wait clear it, and so does a cancel that got a signal through. */
  lemma PausedAfter(trace: seq<Event>, i: nat)
    requires i < |trace|
    ensures Run(trace[..i + 1]).paused <==>
      var s := Run(trace[..i]);
      match trace[i]
      case Pause(_) => true
      case Resume(_) => false
      case Wait(_, _, _) => false
      case Cancel(_, tried, kill, _) => s.paused && !(tried && s.process.Running? && kill)
      case Die(_) => s.paused
  {
    assert trace[..i + 1][..i] == trace[..i];
    ExitCodeIsExit(trace[..i]);
  }

  /** Canceling a job whose process has ended takes its exit code, where it has one. */
  lemma CancelTakesCode(trace: seq<Event>, i: nat)
    requires i < |trace| && trace[i].Cancel? && !Run(trace[..i]).process.Running?
    ensures trace[i].tried ==>
      Run(trace[..i + 1]).process == Reaped(Run(trace[..i]).process.exit)
      && (Run(trace[..i + 1]).exitCode.Some? <==> !Run(trace[..i]).process.exit.Neither?)
  {
    assert trace[..i + 1][..i] == trace[..i];
    ExitCodeIsExit(trace[..i]);
  }

  /** A returned code tells how the process ended: codes from zero up are exit codes,
      negative ones are signals. */
  lemma ReturnedCodeTellsTheEnd(trace: seq<Event>, i: nat)
    requires i < |trace| && Answer(trace, i).Returned?
    ensures var code := Answer(trace, i).code;
      Run(trace[..i + 1]).process == Reaped(if code >= 0 then Exited(code) else Signaled(-code))
  {
    assert trace[..i + 1][..i] == trace[..i];
    ExitCodeIsExit(trace[..i]);
    ExitCodeIsExit(trace[..i + 1]);
    ActKeepsCode(Run(trace[..i]), trace[i]);
  }
}

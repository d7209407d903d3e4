/**
 The user daemon's command channel and the session state kept behind it:
 daemon/mod.rs and daemon/user.rs.

 The channel holds at most ten messages; further senders wait in order.  The loop that
 drains it also posts to it: a new session state is followed by a `WriteState` message
 to itself, and while that send waits for room nobody drains the channel.
 */
module SessionDaemon {
  import opened Base

  const CAPACITY := 10

  datatype LoginMode = Game | Desktop

  datatype SessionState = SessionState(mode: LoginMode, desktop: Option<string>)

  /** A message and the caller on whose behalf it was sent; a `Get` is named so that its
      reply can be told from others. */
  datatype Message =
    | Set(from: nat, state: SessionState)
    | Get(from: nat, id: nat)
    | ReadConfig(from: nat)
    | WriteState(from: nat)

  datatype Status = Running | Stuck | Stopped

  datatype State = State(
    all: seq<Message>,                  // queued messages, then the waiting senders' messages
    memory: SessionState,
    disk: SessionState,
    status: Status,
    replies: map<nat, SessionState>)

  datatype Event =
    | Send(message: Message)
    | Turn(written: bool)               // one round of the loop, and how a file write goes

  predicate Enabled(s: State, e: Event) {
    e.Turn? ==> s.status.Running? && s.all != []
  }

  /** One round of the daemon loop. */
  function Handle(s: State, written: bool): State
    requires s.all != []
  {
    var rest := s.all[1..];
    match s.all[0]
    case Set(from, state) =>
      if |rest| < CAPACITY then s.(memory := state, all := rest + [WriteState(from)])
      else s.(memory := state, all := rest, status := Stuck)
    case Get(_, id) => s.(all := rest, replies := s.replies[id := s.memory])
    case ReadConfig(_) => s.(all := rest)
    case WriteState(_) => if written then s.(all := rest, disk := s.memory) else s.(all := rest, status := Stopped)
  }

  function Step(s: State, e: Event): State
    requires Enabled(s, e)
  {
    match e
    case Send(message) => s.(all := s.all + [message])
    case Turn(written) => Handle(s, written)
  }

  /** The daemon as it starts, with the state read from disk. */
  function Start(state: SessionState): State { State([], state, state, Running, map[]) }

  type Trace = seq<Event>

  predicate Possible(start: SessionState, trace: Trace)
    decreases |trace|, 0
  {
    trace == [] ||
    (var n := |trace| - 1; Possible(start, trace[..n]) && Enabled(Run(start, trace[..n]), trace[n]))
  }

  function Run(start: SessionState, trace: Trace): State
    requires Possible(start, trace)
    decreases |trace|, 1
  {
    if trace == [] then Start(start)
    else var n := |trace| - 1; Step(Run(start, trace[..n]), trace[n])
  }

  // ----- when the loop blocks on its own channel -----

  /** The loop blocks on itself exactly when it takes a new state while more than ten
      messages are queued or waiting to be; otherwise the round does not raise the
      number of messages. */
  lemma StuckIff(s: State, written: bool)
    requires s.status.Running? && s.all != []
    ensures Handle(s, written).status.Stuck? <==> s.all[0].Set? && |s.all| > 10
    ensures |Handle(s, written).all| <= |s.all|
  {
  }

  // ----- the state as its clients see it -----

  /** The state after all queued changes. */
  function Logical(memory: SessionState, all: seq<Message>): SessionState
    decreases |all|
  {
    if all == [] then memory
    else Logical(if all[0].Set? then all[0].state else memory, all[1..])
  }

  function LastSet(start: SessionState, trace: Trace): SessionState {
    if trace == [] then start
    else
      var e := trace[|trace| - 1];
      if e.Send? && e.message.Set? then e.message.state else LastSet(start, trace[..|trace| - 1])
  }

  lemma {:induction false} LogicalAppend(memory: SessionState, all: seq<Message>, m: Message)
    ensures Logical(memory, all + [m]) == if m.Set? then m.state else Logical(memory, all)
    decreases |all|
  {
    if all == [] {
      assert (all + [m])[1..] == [];
    } else {
      assert (all + [m])[1..] == all[1..] + [m];
      LogicalAppend(if all[0].Set? then all[0].state else memory, all[1..], m);
    }
  }

  lemma HandleKeepsLogical(s: State, written: bool)
    requires s.all != []
    ensures Logical(Handle(s, written).memory, Handle(s, written).all) == Logical(s.memory, s.all)
  {
    if s.all[0].Set? && |s.all[1..]| < CAPACITY {
      LogicalAppend(s.all[0].state, s.all[1..], WriteState(s.all[0].from));
    }
  }

  lemma {:induction false} LogicalIsLastSet(start: SessionState, trace: Trace)
    requires Possible(start, trace)
    ensures Logical(Run(start, trace).memory, Run(start, trace).all) == LastSet(start, trace)
    decreases |trace|
  {
    if trace != [] {
      var n := |trace| - 1;
      var s := Run(start, trace[..n]);
      LogicalIsLastSet(start, trace[..n]);
      match trace[n] {
        case Send(message) => LogicalAppend(s.memory, s.all, message);
        case Turn(written) => HandleKeepsLogical(s, written);
      }
    }
  }

  // ----- persistence -----

  predicate NoneToWrite(all: seq<Message>) { forall m :: m in all ==> !m.WriteState? }

  lemma {:induction false} DiskIsMemory(start: SessionState, trace: Trace)
    requires Possible(start, trace) && Run(start, trace).status.Running?
    ensures NoneToWrite(Run(start, trace).all) ==> Run(start, trace).disk == Run(start, trace).memory
    decreases |trace|
  {
    if trace != [] {
      var n := |trace| - 1;
      var s, s1 := Run(start, trace[..n]), Run(start, trace);
      DiskIsMemory(start, trace[..n]);
      if trace[n].Send? {
        assert s1.all == s.all + [trace[n].message];
        assert forall m :: m in s.all ==> m in s1.all;
      } else if s.all[0].Set? {
        var last := s1.all[|s1.all| - 1];
        assert last.WriteState? && last in s1.all;
      } else {
        assert forall m :: m in s.all ==> m == s.all[0] || m in s1.all;
      }
    }
  }

  /** When the channel of a running daemon drains, the state on disk is the last state
      that anybody sent. */
  lemma DrainedIsPersisted(start: SessionState, trace: Trace)
    requires Possible(start, trace) && Run(start, trace).status.Running? && Run(start, trace).all == []
    ensures Run(start, trace).disk == LastSet(start, trace)
  {
    DiskIsMemory(start, trace);
    LogicalIsLastSet(start, trace);
  }

  // ----- reads -----

  /** Every `Get` is named by the event that sent it. */
  ghost predicate NamedByEvent(trace: Trace) {
    forall i :: 0 <= i < |trace| && trace[i].Send? && trace[i].message.Get? ==> trace[i].message.id == i
  }

  /** Each read answered, and each read still to be answered, gives the state as it was
      when the read was sent. */
  ghost predicate ReadsAgree(start: SessionState, trace: Trace, s: State) {
    && (forall id :: id in s.replies ==> id < |trace| && s.replies[id] == LastSet(start, trace[..id]))
    && (forall k :: 0 <= k < |s.all| && s.all[k].Get? ==>
         s.all[k].id < |trace| && Logical(s.memory, s.all[..k]) == LastSet(start, trace[..s.all[k].id]))
  }

  lemma SendKeepsReads(start: SessionState, trace: Trace, s: State, m: Message)
    requires ReadsAgree(start, trace, s) && Logical(s.memory, s.all) == LastSet(start, trace)
    requires m.Get? ==> m.id == |trace|
    ensures ReadsAgree(start, trace + [Send(m)], Step(s, Send(m)))
  {
    var t, s1 := trace + [Send(m)], Step(s, Send(m));
    assert forall id :: 0 <= id <= |trace| ==> t[..id] == trace[..id];
    assert trace[..|trace|] == trace;
    forall k | 0 <= k < |s1.all| && s1.all[k].Get?
      ensures s1.all[k].id < |t| && Logical(s1.memory, s1.all[..k]) == LastSet(start, t[..s1.all[k].id])
    {
      assert s1.all[..k] == s.all[..k];
      if k == |s.all| {
        assert s.all[..k] == s.all;
      }
    }
  }

  lemma TurnKeepsReads(start: SessionState, trace: Trace, s: State, written: bool)
    requires ReadsAgree(start, trace, s) && Enabled(s, Turn(written))
    ensures ReadsAgree(start, trace + [Turn(written)], Handle(s, written))
  {
    var t, s1 := trace + [Turn(written)], Handle(s, written);
    assert forall id :: 0 <= id <= |trace| ==> t[..id] == trace[..id];
    assert s.all[..0] == [];
    forall k | 0 <= k < |s1.all| && s1.all[k].Get?
      ensures s1.all[k].id < |t| && Logical(s1.memory, s1.all[..k]) == LastSet(start, t[..s1.all[k].id])
    {
      assert s1.all[k] == s.all[k + 1];
      assert s.all[..k + 1][1..] == s1.all[..k];
      assert s.all[..k + 1][0] == s.all[0];
    }
  }

  lemma {:induction false} RunReadsAgree(start: SessionState, trace: Trace)
    requires Possible(start, trace) && NamedByEvent(trace)
    ensures ReadsAgree(start, trace, Run(start, trace))
    decreases |trace|
  {
    if trace != [] {
      var n := |trace| - 1;
      RunReadsAgree(start, trace[..n]);
      LogicalIsLastSet(start, trace[..n]);
      assert trace == trace[..n] + [trace[n]];
      match trace[n] {
        case Send(m) => SendKeepsReads(start, trace[..n], Run(start, trace[..n]), m);
        case Turn(written) => TurnKeepsReads(start, trace[..n], Run(start, trace[..n]), written);
      }
    }
  }

  /** A read is answered with the last state sent before it, whoever sent it and
      however the loop and other senders interleave: readers see their own writes. */
  lemma ReadsSeeEarlierWrites(start: SessionState, trace: Trace, i: nat)
    requires Possible(start, trace) && NamedByEvent(trace)
    requires i < |trace| && i in Run(start, trace).replies
    ensures Run(start, trace).replies[i] == LastSet(start, trace[..i])
  {
    RunReadsAgree(start, trace);
  }
}
